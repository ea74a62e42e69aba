/**
  The filtering half of the agent's memory lookups (`recall_context` and `recall_knowledge`
  in backend/ai-agent/agent.py). The vector search itself is outside the model: its
  outcome is an input, `None` when the store or the encoder is unavailable or the search
  raised, otherwise the hits in the order the search returned them.
 */
module Recall {
  import opened Wrappers
  import opened Seqs

  /** One search hit: its similarity score and its payload dictionary. */
  datatype Hit = Hit(score: real, payload: map<string, string>)

  /** A remembered exchange: `{past_message, past_response, relevance}`. */
  datatype Memory = Memory(pastMessage: string, pastResponse: string, relevance: real)

  /** A knowledge entry: `{topic, content, relevance}`. */
  datatype Knowledge = Knowledge(topic: string, content: string, relevance: real)

  function Field(payload: map<string, string>, key: string): string {
    if key in payload then payload[key] else ""
  }

  /** Only memories scoring above 0.5 are relevant. */
  predicate IsRelevantMemory(h: Hit) {
    h.score > 0.5
  }

  /** Knowledge is a payload with a 'topic' and no 'principal', scoring above 0.3. */
  predicate IsKnowledge(h: Hit) {
    "topic" in h.payload && "principal" !in h.payload && h.score > 0.3
  }

  function MemoryOf(h: Hit): Memory {
    Memory(Field(h.payload, "user_message"), Field(h.payload, "lain_response"), h.score)
  }

  function KnowledgeOf(h: Hit): Knowledge {
    Knowledge(Field(h.payload, "topic"), Field(h.payload, "content"), h.score)
  }

  function Memories(hits: seq<Hit>): (r: seq<Memory>)
    ensures |r| == |hits| && forall i | 0 <= i < |hits| :: r[i] == MemoryOf(hits[i])
  {
    seq(|hits|, i requires 0 <= i < |hits| => MemoryOf(hits[i]))
  }

  function Knowledges(hits: seq<Hit>): (r: seq<Knowledge>)
    ensures |r| == |hits| && forall i | 0 <= i < |hits| :: r[i] == KnowledgeOf(hits[i])
  {
    seq(|hits|, i requires 0 <= i < |hits| => KnowledgeOf(hits[i]))
  }

  /** What `recall_context` returns: one memory per relevant hit, in search order. */
  function ContextFor(search: Option<seq<Hit>>): seq<Memory> {
    match search
    case None => []
    case Some(hits) => Memories(Filter(hits, IsRelevantMemory))
  }

  /** What `recall_knowledge` returns: the first `limit` knowledge hits, in search order. */
  function KnowledgeFor(search: Option<seq<Hit>>, limit: int): seq<Knowledge> {
    match search
    case None => []
    case Some(hits) => Knowledges(Take(Filter(hits, IsKnowledge), if limit < 0 then 0 else limit))
  }

  /** One more hit extends the relevant memories by that hit's memory exactly when it scores above 0.5. */
  lemma ContextStep(hits: seq<Hit>, i: nat)
    requires i < |hits|
    ensures Memories(Filter(hits[..i + 1], IsRelevantMemory)) ==
      Memories(Filter(hits[..i], IsRelevantMemory)) + if hits[i].score > 0.5 then [MemoryOf(hits[i])] else []
  {
    assert hits[..i + 1] == hits[..i] + [hits[i]];
    FilterSnoc(hits[..i], hits[i], IsRelevantMemory);
    var kept := Filter(hits[..i], IsRelevantMemory);
    if hits[i].score > 0.5 {
      assert Memories(kept + [hits[i]]) == Memories(kept) + [MemoryOf(hits[i])];
    }
  }

  /** One more hit extends the knowledge by that hit's entry exactly when it is knowledge and fewer
      than `cap` entries were kept. */
  lemma KnowledgeStep(hits: seq<Hit>, i: nat, cap: nat)
    requires i < |hits|
    ensures var before := Knowledges(Take(Filter(hits[..i], IsKnowledge), cap));
      Knowledges(Take(Filter(hits[..i + 1], IsKnowledge), cap)) ==
        if IsKnowledge(hits[i]) && |before| < cap then before + [KnowledgeOf(hits[i])] else before
  {
    var h := hits[i];
    var kept := Filter(hits[..i], IsKnowledge);
    var after := Filter(hits[..i + 1], IsKnowledge);
    assert hits[..i + 1] == hits[..i] + [h];
    FilterSnoc(hits[..i], h, IsKnowledge);
    assert |Knowledges(Take(kept, cap))| == |Take(kept, cap)|;
    if IsKnowledge(h) {
      assert after == kept + [h];
      TakeSnoc(kept, h, cap);
      if |kept| < cap {
        KnowledgesSnoc(Take(kept, cap), h);
      }
    } else {
      assert after == kept;
    }
  }

  lemma KnowledgesSnoc(hits: seq<Hit>, h: Hit)
    ensures Knowledges(hits + [h]) == Knowledges(hits) + [KnowledgeOf(h)]
  {
  }

  /** `recall_context`'s loop: keep the hits scoring above 0.5, in order. */
  method RecallContext(search: Option<seq<Hit>>) returns (context: seq<Memory>)
    ensures context == ContextFor(search)
    ensures forall m | m in context :: m.relevance > 0.5
  {
    context := [];
    if search.None? {
      return;
    }
    var hits := search.value;
    for i := 0 to |hits|
      invariant context == Memories(Filter(hits[..i], IsRelevantMemory))
    {
      var hit := hits[i];
      ContextStep(hits, i);
      if hit.score > 0.5 {
        context := context + [MemoryOf(hit)];
      }
    }
    assert hits[..|hits|] == hits;
    ContextKeepsExactlyRelevant(hits);
  }

  /** `recall_knowledge`'s loop: keep knowledge hits scoring above 0.3 while fewer than `limit` are kept. */
  method RecallKnowledge(search: Option<seq<Hit>>, limit: int) returns (knowledge: seq<Knowledge>)
    ensures knowledge == KnowledgeFor(search, limit)
    ensures |knowledge| <= if limit < 0 then 0 else limit
  {
    knowledge := [];
    if search.None? {
      return;
    }
    var hits := search.value;
    ghost var cap: nat := if limit < 0 then 0 else limit;
    for i := 0 to |hits|
      invariant knowledge == Knowledges(Take(Filter(hits[..i], IsKnowledge), cap))
    {
      var hit := hits[i];
      KnowledgeStep(hits, i, cap);
      if "topic" in hit.payload && "principal" !in hit.payload {
        if hit.score > 0.3 && |knowledge| < limit {
          knowledge := knowledge + [KnowledgeOf(hit)];
        }
      }
    }
    assert hits[..|hits|] == hits;
  }

  /** Every memory comes from a hit that scored above 0.5, and every such hit gives one, in order. */
  lemma ContextKeepsExactlyRelevant(hits: seq<Hit>)
    ensures forall m | m in ContextFor(Some(hits)) :: m.relevance > 0.5
    ensures forall h | h in hits && h.score > 0.5 :: MemoryOf(h) in ContextFor(Some(hits))
    ensures IsSubsequence(Filter(hits, IsRelevantMemory), hits)
  {
    var kept := Filter(hits, IsRelevantMemory);
    forall h | h in hits && h.score > 0.5 ensures MemoryOf(h) in ContextFor(Some(hits)) {
      FilterComplete(hits, IsRelevantMemory, h);
      var k :| 0 <= k < |kept| && kept[k] == h;
      assert ContextFor(Some(hits))[k] == MemoryOf(h);
    }
    forall m | m in ContextFor(Some(hits)) ensures m.relevance > 0.5 {
      var k :| 0 <= k < |kept| && MemoryOf(kept[k]) == m;
      assert kept[k] in kept;
    }
    FilterIsSubsequence(hits, IsRelevantMemory);
  }

  /** Knowledge entries come from hits with a 'topic', without a 'principal', scoring above 0.3,
      taken in search order; and they are the first `limit` of them. */
  lemma KnowledgeQualifies(hits: seq<Hit>, limit: nat)
    ensures |KnowledgeFor(Some(hits), limit)| <= limit
    ensures forall i | 0 <= i < |KnowledgeFor(Some(hits), limit)| ::
      var h := Filter(hits, IsKnowledge)[i];
      "topic" in h.payload && "principal" !in h.payload && h.score > 0.3
      && KnowledgeFor(Some(hits), limit)[i] == KnowledgeOf(h)
    ensures |Filter(hits, IsKnowledge)| >= limit ==> |KnowledgeFor(Some(hits), limit)| == limit
    ensures IsSubsequence(Filter(hits, IsKnowledge), hits)
  {
    var kept := Filter(hits, IsKnowledge);
    forall i | 0 <= i < |Take(kept, limit)| ensures IsKnowledge(kept[i]) {
      assert kept[i] in kept;
    }
    FilterIsSubsequence(hits, IsKnowledge);
  }
}
