/** The retrieval-based reply of a RetrievalAgent: ask the LLM about the
    latest message with one retrieved chunk after another, until a response no
    longer asks for more context or the attempts run out. */
module RetrievalAgents {
  import opened Wrappers
  import opened Util
  import opened Messages
  import opened ConversableAgents

  /** What a response says when the context did not suffice. */
  const Marker := "UPDATE CONTEXT"

  /** The reply when every attempt asked for more context. */
  const FailToAnswer := "FAIL TO ANSWER"

  /** How many characters at each end of a response the marker test reads. */
  const MarkerWindow := 20

  // ---------------------------------------------------------------------------
  // The marker test

  /** Upper-casing of one character (ASCII letters only). */
  function UpperChar(c: char): char {
    if 'a' <= c <= 'z' then (c as int - 32) as char else c
  }

  /** `s.upper()`, character by character. */
  function Upper(s: string): (r: string)
    ensures |r| == |s|
    ensures forall i :: 0 <= i < |s| ==> r[i] == UpperChar(s[i])
  {
    seq(|s|, i requires 0 <= i < |s| => UpperChar(s[i]))
  }

  lemma UpperSlice(s: string, a: nat, b: nat)
    requires a <= b <= |s|
    ensures Upper(s)[a..b] == Upper(s[a..b])
  {
  }

  /** `t` occurs in `s` at offset `i`. */
  predicate OccursAt(s: string, t: string, i: int) {
    0 <= i <= |s| - |t| && s[i..i + |t|] == t
  }

  /** Python's `t in s`: compare `t` with each offset of `s`, from the left. */
  function Contains(s: string, t: string): bool
    decreases |s|
  {
    if |t| > |s| then false
    else if s[..|t|] == t then true
    else Contains(s[1..], t)
  }

  /** The substring search finds `t` exactly when `t` occurs at some offset. */
  lemma {:induction false} ContainsIff(s: string, t: string)
    ensures Contains(s, t) <==> exists i :: OccursAt(s, t, i)
    decreases |s|
  {
    if |t| > |s| {
    } else if s[..|t|] == t {
      assert OccursAt(s, t, 0);
    } else {
      ContainsIff(s[1..], t);
      if Contains(s, t) {
        var j :| OccursAt(s[1..], t, j);
        assert s[1..][j..j + |t|] == s[j + 1..j + 1 + |t|];
        assert OccursAt(s, t, j + 1);
      }
      if exists i :: OccursAt(s, t, i) {
        var i :| OccursAt(s, t, i);
        assert i != 0;
        assert s[1..][i - 1..i - 1 + |t|] == s[i..i + |t|];
        assert OccursAt(s[1..], t, i - 1);
      }
    }
  }

  /** `v[:20]`. */
  function Head(v: string): string {
    v[..Min(MarkerWindow, |v|)]
  }

  /** `v[-20:]`. */
  function Tail(v: string): string {
    v[|v| - Min(MarkerWindow, |v|)..]
  }

  /** `t` occurs in the upper-cased last or first 20 characters of `v`. */
  predicate InWindows(v: string, t: string) {
    Contains(Upper(Tail(v)), t) || Contains(Upper(Head(v)), t)
  }

  /** The marker test of the retry loop. A response of at most 20 characters
      is one window, read whole. */
  function HasMarker(v: string): (b: bool)
    ensures |v| <= MarkerWindow ==> (b <==> Contains(Upper(v), Marker))
  {
    assert |v| <= MarkerWindow ==> Head(v) == v && Tail(v) == v;
    InWindows(v, Marker)
  }

  /** An occurrence of `t` in `v`, ignoring case, at offset `i`. */
  predicate UpperAt(v: string, t: string, i: int) {
    0 <= i <= |v| - |t| && Upper(v[i..i + |t|]) == t
  }

  /** An occurrence in the upper-cased slice `v[lo:hi]` is one in `v`. */
  lemma WindowToWhole(v: string, t: string, lo: nat, hi: nat, j: int)
    requires lo <= hi <= |v| && OccursAt(Upper(v[lo..hi]), t, j)
    ensures UpperAt(v, t, lo + j)
  {
    var w := v[lo..hi];
    UpperSlice(w, j, j + |t|);
    var a, b := w[j..j + |t|], v[lo + j..lo + j + |t|];
    assert a == b by {
      forall k | 0 <= k < |t| ensures a[k] == b[k] {
        assert a[k] == w[j + k] == v[lo + j + k];
      }
    }
  }

  /** An occurrence in `v` between `lo` and `hi` is one in the upper-cased slice. */
  lemma WholeToWindow(v: string, t: string, lo: nat, hi: nat, i: int)
    requires UpperAt(v, t, i) && lo <= i && i + |t| <= hi <= |v|
    ensures OccursAt(Upper(v[lo..hi]), t, i - lo)
  {
    var w := v[lo..hi];
    UpperSlice(w, i - lo, i - lo + |t|);
    var a, b := w[i - lo..i - lo + |t|], v[i..i + |t|];
    assert a == b by {
      forall k | 0 <= k < |t| ensures a[k] == b[k] {
        assert a[k] == w[i - lo + k] == v[i + k];
      }
    }
  }

  /** `t` occurs in the upper-cased slice `v[lo:hi]` exactly when it occurs in
      `v`, ignoring case, wholly between `lo` and `hi`. */
  lemma WindowContainsIff(v: string, t: string, lo: nat, hi: nat)
    requires lo <= hi <= |v|
    ensures Contains(Upper(v[lo..hi]), t) <==> exists i :: UpperAt(v, t, i) && lo <= i && i + |t| <= hi
  {
    ContainsIff(Upper(v[lo..hi]), t);
    if Contains(Upper(v[lo..hi]), t) {
      var j :| OccursAt(Upper(v[lo..hi]), t, j);
      WindowToWhole(v, t, lo, hi, j);
    }
    if exists i :: UpperAt(v, t, i) && lo <= i && i + |t| <= hi {
      var i :| UpperAt(v, t, i) && lo <= i && i + |t| <= hi;
      WholeToWindow(v, t, lo, hi, i);
    }
  }

  /** A pattern is found in the windows exactly when it occurs in `v`, ignoring
      case, wholly inside the first 20 or wholly inside the last 20 characters. */
  lemma InWindowsIff(v: string, t: string)
    ensures InWindows(v, t) <==>
      exists i :: UpperAt(v, t, i) && (i + |t| <= MarkerWindow || i >= |v| - MarkerWindow)
  {
    var w := Min(MarkerWindow, |v|);
    var off := |v| - w;
    assert Head(v) == v[0..w];
    assert Tail(v) == v[off..|v|];
    WindowContainsIff(v, t, 0, w);
    WindowContainsIff(v, t, off, |v|);
    if Contains(Upper(Head(v)), t) {
      var i :| UpperAt(v, t, i) && 0 <= i && i + |t| <= w;
      assert i + |t| <= MarkerWindow;
    }
    if Contains(Upper(Tail(v)), t) {
      assert Contains(Upper(v[off..|v|]), t);
      var i :| UpperAt(v, t, i) && off <= i && i + |t| <= |v|;
      assert i >= |v| - MarkerWindow;
    }
    if exists i :: UpperAt(v, t, i) && (i + |t| <= MarkerWindow || i >= |v| - MarkerWindow) {
      var i :| UpperAt(v, t, i) && (i + |t| <= MarkerWindow || i >= |v| - MarkerWindow);
      if i + |t| <= MarkerWindow {
        assert 0 <= i && i + |t| <= w;
      } else {
        assert off <= i && i + |t| <= |v|;
      }
    }
  }

  /** A response has the marker exactly when "UPDATE CONTEXT" occurs in it,
      ignoring case, wholly inside its first 20 or its last 20 characters. */
  lemma HasMarkerIff(v: string)
    ensures HasMarker(v) <==>
      exists i :: UpperAt(v, Marker, i) && (i + |Marker| <= MarkerWindow || i >= |v| - MarkerWindow)
  {
    InWindowsIff(v, Marker);
  }

  // ---------------------------------------------------------------------------
  // The retry loop

  /** How the question appears in a prompt: `message["content"]` formatted,
      so a None content reads "None". */
  function QuestionText(content: Field<string>): string
    requires !content.Absent?
  {
    if content.Null? then "None" else content.value
  }

  const QuestionLead := "User's question is: "
  const ContextLead := "\n\nContext is: "

  /** The prompt for one chunk: the question and the chunk read back at fixed
      offsets, after their lead texts. */
  function Prompt(question: string, chunk: string): (r: string)
    ensures |r| == |QuestionLead| + |question| + |ContextLead| + |chunk| + 1
    ensures r[..|QuestionLead|] == QuestionLead
    ensures r[|QuestionLead|..|QuestionLead| + |question|] == question
    ensures var at := |QuestionLead| + |question| + |ContextLead|;
      r[at..at + |chunk|] == chunk && r[at + |chunk|..] == "\n"
  {
    var r := QuestionLead + question + ContextLead + chunk + "\n";
    MiddleOf(QuestionLead, question, ContextLead + chunk + "\n");
    assert r == QuestionLead + question + (ContextLead + chunk + "\n");
    MiddleOf(QuestionLead + question + ContextLead, chunk, "\n");
    assert r == (QuestionLead + question + ContextLead) + chunk + "\n";
    r
  }

  /** The most chunks the loop asks about: `max(1, min(update_context_retry, len(contents)))`. */
  function AttemptBound(retry: int, count: nat): (b: nat)
    ensures 1 <= b
    ensures count >= 1 ==> b <= count
    ensures retry >= 1 && count >= 1 ==> b == Min(retry, count)
  {
    Max(1, Min(retry, count))
  }

  /** The index of the first chunk whose response is not `marked`, among the
      chunks the loop may ask about, or the bound when every response is. */
  function FirstAnswered(question: string, contents: seq<string>, retry: int, llm: string -> string,
                         marked: string -> bool): (k: nat)
    requires |contents| >= 1
    ensures k <= AttemptBound(retry, |contents|)
    ensures forall j :: 0 <= j < k ==> marked(llm(Prompt(question, contents[j])))
    ensures k < AttemptBound(retry, |contents|) ==> !marked(llm(Prompt(question, contents[k])))
  {
    var b := AttemptBound(retry, |contents|);
    var p := (j: nat) => j < b && !marked(llm(Prompt(question, contents[j])));
    assert forall j: nat :: p(j) <==> j < b && !marked(llm(Prompt(question, contents[j])));
    FirstWhere(p, 0, b)
  }

  /** `generate_retrieval_based_reply` with `contents` the raw chunks the search
      returned for the latest message and `llm` the model's answer to a prompt.
      `prompts` lists the prompts the LLM was asked, in order. `agent` is the
      RetrievalAgent: with no messages given, its history is read under the
      sender's name, and the defaultdict read opens an empty history there. */
  method GenerateRetrievalBasedReply(agent: ConversableAgent, msgs: Option<seq<Message>>,
                                     sender: Option<ConversableAgent>, contents: seq<string>,
                                     updateContextRetry: int, llm: string -> string)
    returns (r: Result<HandlerResult>, prompts: seq<string>)
    modifies agent`nameKeys
    ensures agent.nameKeys == if msgs.None? && sender.Some? then old(agent.nameKeys) + {sender.value.name}
                              else old(agent.nameKeys)
    ensures msgs.None? && sender.None? ==> r == Err(AttributeError) && prompts == []
    ensures msgs.Some? || sender.Some? ==>
      var hist := msgs.GetOr([]);
      if |hist| == 0 then r == Err(IndexError) && prompts == []
      else if hist[|hist| - 1].content.Absent? then r == Err(KeyError) && prompts == []
      else if |contents| == 0 then r == Err(IndexError) && prompts == []
      else
        var question := QuestionText(hist[|hist| - 1].content);
        var b := AttemptBound(updateContextRetry, |contents|);
        var k := FirstAnswered(question, contents, updateContextRetry, llm, HasMarker);
        && |prompts| == Min(k + 1, b)
        && (forall j :: 0 <= j < |prompts| ==> prompts[j] == Prompt(question, contents[j]))
        && r == Ok(HandlerResult(true, TextReply(if k < b then llm(prompts[k]) else FailToAnswer)))
  {
    if msgs.None? && sender.None? {
      return Err(AttributeError), [];
    }
    var hist := if msgs.Some? then msgs.value else [];
    if msgs.None? {
      agent.nameKeys := agent.nameKeys + {sender.value.name};
    }
    if |hist| == 0 {
      return Err(IndexError), [];
    }
    var message := hist[|hist| - 1];
    if message.content.Absent? {
      return Err(KeyError), [];
    }
    if |contents| == 0 {
      return Err(IndexError), [];
    }
    var question := QuestionText(message.content);
    var reply;
    reply, prompts := AskUntilAnswered(question, contents, updateContextRetry, llm, HasMarker);
    r := Ok(HandlerResult(true, TextReply(reply)));
  }

  /** The retry loop of `generate_retrieval_based_reply`: ask about chunk 0,
      then about the next chunk while the response is `marked` (the marker
      test) and the bound allows. `prompts` lists the prompts asked, in order. */
  method AskUntilAnswered(question: string, contents: seq<string>, updateContextRetry: int, llm: string -> string,
                          marked: string -> bool)
    returns (reply: string, prompts: seq<string>)
    requires |contents| >= 1
    ensures var b := AttemptBound(updateContextRetry, |contents|);
      var k := FirstAnswered(question, contents, updateContextRetry, llm, marked);
      && |prompts| == Min(k + 1, b)
      && (forall j :: 0 <= j < |prompts| ==> prompts[j] == Prompt(question, contents[j]))
      && reply == (if k < b then llm(prompts[k]) else FailToAnswer)
  {
    ghost var b := AttemptBound(updateContextRetry, |contents|);
    var currentDoc := 0;
    var prompt := Prompt(question, contents[currentDoc]);
    prompts := [prompt];
    var v := llm(prompt);
    var updateContextCase := marked(v);
    while updateContextCase
      invariant 0 <= currentDoc < b
      invariant |prompts| == currentDoc + 1
      invariant forall j :: 0 <= j < |prompts| ==> prompts[j] == Prompt(question, contents[j])
      invariant forall j :: 0 <= j < currentDoc ==> marked(llm(prompts[j]))
      invariant v == llm(prompts[currentDoc]) && updateContextCase == marked(v)
      decreases b - currentDoc
    {
      currentDoc := currentDoc + 1;
      if currentDoc >= updateContextRetry || currentDoc >= |contents| {
        break;
      }
      prompt := Prompt(question, contents[currentDoc]);
      prompts := prompts + [prompt];
      v := llm(prompt);
      updateContextCase := marked(v);
    }
    ghost var k := FirstAnswered(question, contents, updateContextRetry, llm, marked);
    if updateContextCase {
      assert currentDoc == b;
      assert k == b;
      reply := FailToAnswer;
    } else {
      assert k == currentDoc;
      reply := v;
    }
  }

  /** The triggers a RetrievalAgent registers its handlers with:
      `[Agent, ClientActorHandle, str]`. */
  const RetrievalTriggers := AnyOf([AgentClass, ActorHandleClass, StrClass])

  /** The reply list a RetrievalAgent installs: the list is emptied, then the
      retrieval handler and the termination handler are inserted at the front,
      so the termination handler comes first. */
  method InstallRetrievalReplies(agent: ConversableAgent)
    modifies agent`replyFuncList
    ensures agent.replyFuncList == [
              ReplyEntry(RetrievalTriggers, CheckTerminationAndHumanReply, NoConfig, NoConfig, None, false),
              ReplyEntry(RetrievalTriggers, Handler.GenerateRetrievalBasedReply, NoConfig, NoConfig, None, false)]
  {
    agent.replyFuncList := [];
    agent.RegisterReply(RetrievalTriggers, Handler.GenerateRetrievalBasedReply, 0, NoConfig, None, false);
    agent.RegisterReply(RetrievalTriggers, CheckTerminationAndHumanReply, 0, NoConfig, None, false);
    InsertAtFrontTwice([], ReplyEntry(RetrievalTriggers, Handler.GenerateRetrievalBasedReply, NoConfig, NoConfig, None, false),
                       ReplyEntry(RetrievalTriggers, CheckTerminationAndHumanReply, NoConfig, NoConfig, None, false));
  }

  // ---------------------------------------------------------------------------
  // How the loop calls the LLM

  /** The pair `(final, reply)` that `generate_llm_reply` returns. */
  datatype LlmReply = LlmReply(final: bool, reply: Option<string>)

  /** `generate_llm_reply(messages, sender)` where the history key `sender` is a
      list of strings, the only kind of sender the retry loop passes. `chat` is
      the model's `chat_oai`, answering a whole message list, and `system` the
      system messages put before `messages`. Without a model the result is
      `(False, None)`; with `messages` None the list is used as a dict key,
      which raises TypeError; otherwise the result is final with the model's
      answer to `system + messages`. */
  function LlmReplyWithListSender(chat: Option<seq<string> -> string>, system: seq<string>,
                                  messages: Option<seq<string>>, sender: seq<string>): Result<LlmReply>
  {
    if chat.None? then Ok(LlmReply(false, None))
    else if messages.None? then Err(TypeError)
    else Ok(LlmReply(true, Some(chat.value(system + messages.value))))
  }

  /** One step of the loop as written: `final, v = generate_llm_reply(None,
      [prompt], sender)` followed by the marker test on `v`, which slices `v`
      and so raises TypeError when `v` is None. The result is the marker test's
      verdict. */
  function LoopStepAsWritten(chat: Option<seq<string> -> string>, system: seq<string>, prompt: string)
    : Result<bool>
  {
    match LlmReplyWithListSender(chat, system, None, [prompt])
    case Err(e) => Err(e)
    case Ok(v) => if v.reply.None? then Err(TypeError) else Ok(HasMarker(v.reply.value))
  }

  /** As written, every step of the loop raises TypeError, with or without a model. */
  lemma LoopStepAsWrittenRaises(chat: Option<seq<string> -> string>, system: seq<string>, prompt: string)
    ensures LoopStepAsWritten(chat, system, prompt) == Err(TypeError)
  {
  }

  /** Passing the prompt as the messages, as evidently intended, asks the model
      about the system messages followed by the prompt: the `llm` parameter of
      `GenerateRetrievalBasedReply` is `p => chat(system + [p])`. */
  lemma PromptAsMessagesReachesModel(chat: seq<string> -> string, system: seq<string>, prompt: string,
                                     sender: seq<string>)
    ensures LlmReplyWithListSender(Some(chat), system, Some([prompt]), sender) ==
            Ok(LlmReply(true, Some(chat(system + [prompt]))))
  {
  }
}
