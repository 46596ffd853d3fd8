/** Chat messages and the normalisation a ConversableAgent applies before it
    stores a message (`_message_to_dict` and the first half of `_append_message`). */
module Messages {
  import opened Wrappers

  const Assistant := "assistant"
  const User := "user"
  const FunctionRole := "function"

  /** One key of a message dict: missing, present with value None, or present
      with a value. */
  datatype Field<+T> = Absent | Null | Present(value: T)

  datatype FunctionCall = FunctionCall(name: string, arguments: string)

  /** A message dict restricted to the keys the agent looks at. "role" is read
      with `get`, so a missing role and a None role are the same. */
  datatype Message = Message(
    content: Field<string>,
    functionCall: Field<FunctionCall>,
    name: Field<string>,
    context: Field<string>,
    role: Option<string>)

  /** What callers may pass as a message: a plain string or a dict. */
  datatype RawMessage = Text(text: string) | Dict(fields: Message)

  /** `_message_to_dict`: a dict is used as it is; a string becomes a dict whose
      only key is "content", so it can always be appended. */
  function MessageToDict(raw: RawMessage): (r: Message)
    ensures raw.Dict? ==> r == raw.fields
    ensures raw.Text? ==> r.content == Present(raw.text) && Appendable(r) && r.functionCall.Absent?
  {
    match raw
    case Text(s) => Message(Present(s), Absent, Absent, Absent, None)
    case Dict(m) => m
  }

  /** A message carries a "content" or a "function_call" key; everything else is
      rejected. A key whose value is None counts as present. */
  predicate Appendable(m: Message) {
    m.content != Absent || m.functionCall != Absent
  }

  /** The shape of every message a history holds. */
  predicate WellFormed(m: Message) {
    && m.content != Absent
    && m.role.Some?
    && !m.functionCall.Null?
    && (m.functionCall.Present? ==> m.role == Some(Assistant))
  }

  /** The role a stored message gets, given the role argument of the append. */
  function StoredRole(m: Message, role: string): string {
    if m.functionCall != Absent then Assistant
    else if m.role == Some(FunctionRole) then FunctionRole
    else role
  }

  /** What `_append_message` does with a message: store it, return False, or
      raise. */
  datatype Appended = Stored(value: Message) | Rejected | Raises(error: Error)

  /** The message `_append_message(raw, role, ...)` stores. A message with
      neither "content" nor "function_call" is rejected; a "function_call" of
      None reaches `dict(None)`, which raises TypeError. */
  function Normalize(raw: RawMessage, role: string): (r: Appended)
    ensures r.Rejected? <==> !Appendable(MessageToDict(raw))
    ensures r.Raises? <==> Appendable(MessageToDict(raw)) && MessageToDict(raw).functionCall.Null?
    ensures r.Raises? ==> r.error == TypeError
    ensures r.Stored? ==> WellFormed(r.value)
    ensures r.Stored? ==>
      var m := MessageToDict(raw);
      && r.value.functionCall == m.functionCall
      && r.value.name == m.name
      && r.value.context == m.context
      && r.value.content == (if m.content == Absent then Null else m.content)
      && r.value.role == Some(StoredRole(m, role))
  {
    var m := MessageToDict(raw);
    if m.content == Absent && m.functionCall == Absent then Rejected
    else if m.functionCall.Null? then Raises(TypeError)
    else
      var content := if m.content == Absent then Null else m.content;
      Stored(Message(content, m.functionCall, m.name, m.context, Some(StoredRole(m, role))))
  }

  /** What happens to a message does not depend on the role argument, except
      for the role stored: `send` (role "assistant") and `receive` (role "user")
      accept, reject and fail on the same messages. */
  lemma ValidityIgnoresRole(raw: RawMessage, role1: string, role2: string)
    ensures Normalize(raw, role1).Stored? <==> Normalize(raw, role2).Stored?
    ensures !Normalize(raw, role1).Stored? ==> Normalize(raw, role1) == Normalize(raw, role2)
  {
  }

  /** A plain string is stored as a message with that content and the role argument. */
  lemma TextIsStoredAsContent(s: string, role: string)
    ensures Normalize(Text(s), role) == Stored(Message(Present(s), Absent, Absent, Absent, Some(role)))
  {
  }

  /** `receive` converts the message to a dict before `_append_message`
      converts it again; the second conversion changes nothing. */
  lemma ConvertedTwice(raw: RawMessage, role: string)
    ensures Normalize(Dict(MessageToDict(raw)), role) == Normalize(raw, role)
  {
  }

  /** Normalisation is idempotent: storing an already stored message again, with
      the same role argument, stores it unchanged. */
  lemma NormalizeIdempotent(raw: RawMessage, role: string)
    requires Normalize(raw, role).Stored?
    ensures Normalize(Dict(Normalize(raw, role).value), role) == Normalize(raw, role)
  {
  }

  /** Every history of a map of histories holds well-formed messages only. */
  ghost predicate WellFormedHistories<K>(h: map<K, seq<Message>>) {
    forall k :: k in h ==> AllWellFormed(h[k])
  }

  /** Every message of one history is well formed. */
  ghost predicate AllWellFormed(s: seq<Message>) {
    forall i :: 0 <= i < |s| ==> WellFormed(s[i])
  }

  /** The history with `k`, empty when there is none (a defaultdict read). */
  function History<K>(h: map<K, seq<Message>>, k: K): seq<Message> {
    if k in h then h[k] else []
  }

  /** `b` arises from `a` by appending to histories and opening new ones. */
  ghost predicate AppendOnly<K>(a: map<K, seq<Message>>, b: map<K, seq<Message>>) {
    forall k :: k in a ==> k in b && a[k] <= b[k]
  }

  lemma AppendOnlyTransitive<K>(a: map<K, seq<Message>>, b: map<K, seq<Message>>, c: map<K, seq<Message>>)
    requires AppendOnly(a, b) && AppendOnly(b, c)
    ensures AppendOnly(a, c)
  {
    forall k | k in a ensures k in c && a[k] <= c[k] {
      assert a[k] == b[k][..|a[k]|];
      assert b[k] == c[k][..|b[k]|];
    }
  }
}
