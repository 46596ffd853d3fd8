/** The post-processing a RetrievalAgent applies to the records its memory
    table returns: `get_conversations` cuts them to the limit and sorts them by
    creation time, `search_memory` keeps the user's messages of one chat and
    cuts them to the limit. The backend query itself is a parameter: `docs` is
    what it returned, in its order. */
module RetrievalMemory {
  import opened Wrappers
  import opened Util

  /** One row of the memory table, restricted to the keys read here. */
  datatype MemoryRecord = MemoryRecord(
    id: string,
    chatName: string,
    role: string,
    owner: string,
    rawContent: string,
    createdTime: int)

  // ---------------------------------------------------------------------------
  // Sorting by creation time

  /** Ascending by creation time. */
  predicate SortedByTime(s: seq<MemoryRecord>) {
    forall i, j :: 0 <= i < j < |s| ==> s[i].createdTime <= s[j].createdTime
  }

  /** The records of `s` created at `t`, in their order in `s`. */
  function CreatedAt(s: seq<MemoryRecord>, t: int): seq<MemoryRecord> {
    if |s| == 0 then []
    else (if s[0].createdTime == t then [s[0]] else []) + CreatedAt(s[1..], t)
  }

  /** Put `x` before the first record created no earlier than it. */
  function Insert(x: MemoryRecord, s: seq<MemoryRecord>): (r: seq<MemoryRecord>)
    ensures multiset(r) == multiset(s) + multiset{x}
  {
    if |s| == 0 then [x]
    else if x.createdTime <= s[0].createdTime then [x] + s
    else
      assert s == [s[0]] + s[1..];
      [s[0]] + Insert(x, s[1..])
  }

  /** Inserting into a sorted sequence keeps it sorted. */
  lemma {:induction false} InsertSorted(x: MemoryRecord, s: seq<MemoryRecord>)
    requires SortedByTime(s)
    ensures SortedByTime(Insert(x, s))
  {
    if |s| > 0 && x.createdTime > s[0].createdTime {
      var rest := Insert(x, s[1..]);
      InsertSorted(x, s[1..]);
      forall k | 0 <= k < |rest| ensures s[0].createdTime <= rest[k].createdTime {
        assert rest[k] in multiset(s[1..]) + multiset{x};
        if rest[k] != x {
          var j :| 0 <= j < |s[1..]| && s[1..][j] == rest[k];
          assert s[j + 1] == rest[k];
        }
      }
      assert Insert(x, s) == [s[0]] + rest;
    }
  }

  /** `sorted(s, key=lambda x: x["created_time"])`: Python's sort is stable, so
      records created at the same time keep their order. */
  function SortByTime(s: seq<MemoryRecord>): (r: seq<MemoryRecord>)
    ensures SortedByTime(r)
    ensures multiset(r) == multiset(s)
  {
    if |s| == 0 then []
    else
      assert s == [s[0]] + s[1..];
      InsertSorted(s[0], SortByTime(s[1..]));
      Insert(s[0], SortByTime(s[1..]))
  }

  /** Inserting `x` puts it first among the records created at its time and
      moves no other record past one created at the same time. */
  lemma {:induction false} InsertKeepsTies(x: MemoryRecord, s: seq<MemoryRecord>, t: int)
    ensures CreatedAt(Insert(x, s), t) == (if x.createdTime == t then [x] else []) + CreatedAt(s, t)
  {
    if |s| == 0 {
    } else if x.createdTime <= s[0].createdTime {
      assert ([x] + s)[1..] == s;
    } else {
      var r := [s[0]] + Insert(x, s[1..]);
      assert r[1..] == Insert(x, s[1..]);
      InsertKeepsTies(x, s[1..], t);
    }
  }

  /** The sort is stable: for every creation time, the records created then
      appear in the same order before and after sorting. */
  lemma {:induction false} SortIsStable(s: seq<MemoryRecord>, t: int)
    ensures CreatedAt(SortByTime(s), t) == CreatedAt(s, t)
  {
    if |s| > 0 {
      SortIsStable(s[1..], t);
      InsertKeepsTies(s[0], SortByTime(s[1..]), t);
    }
  }

  /** `get_conversations` after the query: `sorted(docs[0:limit], ...)`. The
      conversation has the length of `docs[0:limit]`, so at most `limit`
      records, is sorted ascending by creation time and holds exactly the
      records of `docs[0:limit]`. */
  function GetConversations(docs: seq<MemoryRecord>, limit: int): (r: seq<MemoryRecord>)
    ensures |r| == PrefixLength(|docs|, limit)
    ensures limit >= 0 ==> |r| <= limit
    ensures SortedByTime(r)
    ensures multiset(r) == multiset(PyPrefix(docs, limit))
  {
    var r := SortByTime(PyPrefix(docs, limit));
    assert |r| == |multiset(r)|;
    r
  }

  /** The conversation keeps the query's order among records created at the
      same time. */
  lemma GetConversationsKeepsTies(docs: seq<MemoryRecord>, limit: int, t: int)
    ensures CreatedAt(GetConversations(docs, limit), t) == CreatedAt(PyPrefix(docs, limit), t)
  {
    SortIsStable(PyPrefix(docs, limit), t);
  }

  // ---------------------------------------------------------------------------
  // Searching the memory

  /** The records `search_memory` keeps: the user's messages in `chatName`. */
  predicate Matches(d: MemoryRecord, chatName: string) {
    d.role == "user" && d.chatName == chatName
  }

  /** `a` is `b` with some elements left out, the rest in their order. */
  predicate SubsequenceOf<T(==)>(a: seq<T>, b: seq<T>)
    decreases |b|
  {
    if |a| == 0 then true
    else if |b| == 0 then false
    else if a[0] == b[0] then SubsequenceOf(a[1..], b[1..])
    else SubsequenceOf(a, b[1..])
  }

  /** `[doc for doc in docs if doc["role"] == "user" and doc["chat_name"] == chat_name]`. */
  function MatchingRecords(docs: seq<MemoryRecord>, chatName: string): (r: seq<MemoryRecord>)
    ensures forall i :: 0 <= i < |r| ==> Matches(r[i], chatName)
    ensures forall d :: multiset(r)[d] == (if Matches(d, chatName) then multiset(docs)[d] else 0)
    ensures SubsequenceOf(r, docs)
  {
    if |docs| == 0 then []
    else
      var rest := MatchingRecords(docs[1..], chatName);
      assert docs == [docs[0]] + docs[1..];
      if Matches(docs[0], chatName) then
        assert ([docs[0]] + rest)[1..] == rest;
        [docs[0]] + rest
      else rest
  }

  /** What `search_memory` returns: the records, or the JSON list of their
      contents, given here as the list of strings it holds. */
  datatype MemorySearch = Records(records: seq<MemoryRecord>) | Contents(contents: seq<string>)

  /** `search_memory` after the query, as written. The JSON branch reads the key
      "raw_chunk", which memory records do not have (they store "raw_content"),
      so it raises KeyError as soon as one record is kept. */
  function SearchMemory(docs: seq<MemoryRecord>, chatName: string, limit: int, returnJson: bool)
    : (r: Result<MemorySearch>)
    ensures !returnJson ==> r == Ok(SearchMemoryCorrected(docs, chatName, limit, false))
    ensures returnJson ==> (r.Ok? <==> SearchMemoryCorrected(docs, chatName, limit, true).contents == [])
    ensures r.Ok? ==> r == Ok(SearchMemoryCorrected(docs, chatName, limit, returnJson))
    ensures r.Err? ==> r.error == KeyError
  {
    var kept := PyPrefix(MatchingRecords(docs, chatName), limit);
    if !returnJson then Ok(Records(kept))
    else if |kept| > 0 then Err(KeyError)
    else Ok(Contents([]))
  }

  /** As written, the JSON branch fails whenever the search finds something. */
  lemma SearchMemoryJsonRaises(docs: seq<MemoryRecord>, chatName: string, limit: int, i: nat)
    requires limit > 0 && i < |docs| && Matches(docs[i], chatName)
    ensures SearchMemory(docs, chatName, limit, true) == Err(KeyError)
  {
    var m := MatchingRecords(docs, chatName);
    assert docs[i] in multiset(docs);
    assert multiset(m)[docs[i]] > 0;
  }

  /** The contents of the kept records. */
  function RawContents(s: seq<MemoryRecord>): (r: seq<string>)
    ensures |r| == |s|
    ensures forall i :: 0 <= i < |s| ==> r[i] == s[i].rawContent
  {
    seq(|s|, i requires 0 <= i < |s| => s[i].rawContent)
  }

  /** `search_memory` with the JSON branch reading "raw_content", as evidently
      intended. */
  function SearchMemoryCorrected(docs: seq<MemoryRecord>, chatName: string, limit: int, returnJson: bool)
    : (r: MemorySearch)
    ensures returnJson <==> r.Contents?
    ensures var n := PrefixLength(|MatchingRecords(docs, chatName)|, limit);
      && (r.Records? ==> |r.records| == n && r.records <= MatchingRecords(docs, chatName))
      && (r.Contents? ==> |r.contents| == n)
      && (r.Contents? ==> forall i :: 0 <= i < n ==> r.contents[i] == MatchingRecords(docs, chatName)[i].rawContent)
  {
    var kept := PyPrefix(MatchingRecords(docs, chatName), limit);
    if returnJson then Contents(RawContents(kept)) else Records(kept)
  }

  /** The search keeps at most `limit` records, each a user message of the
      requested chat, in the query's order, and misses none before the cut:
      below the limit it keeps every matching record. Both branches list the
      same records. */
  lemma SearchMemorySpec(docs: seq<MemoryRecord>, chatName: string, limit: int)
    ensures var r := SearchMemoryCorrected(docs, chatName, limit, false);
      && r.Records?
      && SearchMemory(docs, chatName, limit, false) == Ok(r)
      && (limit >= 0 ==> |r.records| <= limit)
      && (forall i :: 0 <= i < |r.records| ==> Matches(r.records[i], chatName))
      && r.records <= MatchingRecords(docs, chatName)
      && SubsequenceOf(r.records, docs)
      && (|r.records| < limit ==> multiset(r.records) == multiset(MatchingRecords(docs, chatName)))
      && SearchMemoryCorrected(docs, chatName, limit, true) == Contents(RawContents(r.records))
  {
    var m := MatchingRecords(docs, chatName);
    var r := PyPrefix(m, limit);
    assert r == m[..|r|];
    PrefixOfSubsequence(r, m, docs);
    if |r| < limit {
      assert r == m;
    }
  }

  /** A prefix of a subsequence is a subsequence. */
  lemma {:induction false} PrefixOfSubsequence<T>(a: seq<T>, m: seq<T>, b: seq<T>)
    requires a <= m && SubsequenceOf(m, b)
    ensures SubsequenceOf(a, b)
    decreases |b|
  {
    if |a| > 0 && |b| > 0 {
      if m[0] == b[0] {
        PrefixOfSubsequence(a[1..], m[1..], b[1..]);
      } else {
        PrefixOfSubsequence(a, m, b[1..]);
      }
    }
  }
}
