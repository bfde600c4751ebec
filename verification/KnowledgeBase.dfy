/**
 Knowledge-base search (`searchKnowledgeBase` in lib/ai/knowledge-base.ts).
 The semantic path filters the embedded entries by category, scores them
 with a similarity function against the query's embedding, sorts and keeps
 the first `topK`. When the embedding service fails, the keyword fallback
 scores the static entries (+2 per keyword found in the title, +1 per keyword
 found in the content), drops the zero scores, sorts and keeps the first
 `topK`.
 */
module KnowledgeBase {
  import opened JsBuiltins

  datatype KbCategory = Faq | Products | Policies | Billing | Technical

  /** An embedding vector; similarity between vectors is left abstract. */
  type Embedding = seq<real>

  datatype KnowledgeEntry = KnowledgeEntry(
    id: string,
    title: string,
    content: string,
    category: KbCategory,
    embedding: Option<Embedding>)

  /** An entry returned by a search: the entry's fields unchanged, plus a score. */
  datatype ScoredEntry = ScoredEntry(entry: KnowledgeEntry, score: real)

  function ScoreOf(s: ScoredEntry): real { s.score }

  const DefaultTopK: int := 3

  /** The built-in articles, in their declared order, without embeddings. */
  const StaticKnowledgeBase: seq<KnowledgeEntry> := [
    KnowledgeEntry(
      "1", "Return Policy",
      "We offer a 30-day return policy on most items. Products must be in original condition with all packaging and accessories. To initiate a return, log into your account, go to Order History, and select \"Return Item\". Refunds are processed within 5-7 business days after we receive the item.",
      Policies, None),
    KnowledgeEntry(
      "2", "Shipping Information",
      "We offer free standard shipping on orders over $50. Standard shipping takes 5-7 business days. Express shipping (2-3 days) is available for $15. Orders placed before 2 PM EST ship the same day. You will receive a tracking number via email once your order ships.",
      Policies, None),
    KnowledgeEntry(
      "3", "Password Reset",
      "To reset your password: 1) Go to the login page and click \"Forgot Password\". 2) Enter your email address. 3) Check your email for a reset link (check spam if not in inbox). 4) Click the link and create a new password. 5) Password must be at least 8 characters with one number and one special character. The reset link expires in 24 hours.",
      Technical, None),
    KnowledgeEntry(
      "4", "Warranty Information",
      "All electronics come with a 1-year manufacturer warranty covering defects in materials and workmanship. Warranty does not cover accidental damage, water damage, or normal wear and tear. To claim warranty, contact our support team with your order number and description of the issue. Extended warranties are available for purchase at checkout.",
      Policies, None),
    KnowledgeEntry(
      "5", "Order Tracking",
      "To track your order: 1) Log into your account and go to Order History. 2) Click on the order you want to track. 3) You will see the current status and tracking number. 4) Click the tracking number to see detailed shipping information. If your order shows as shipped but tracking hasn't updated in 24 hours, please contact us.",
      Faq, None),
    KnowledgeEntry(
      "6", "Payment Methods",
      "We accept Visa, Mastercard, American Express, Discover, PayPal, Apple Pay, and Google Pay. We also offer financing through Affirm for purchases over $200. All transactions are encrypted and secure. We do not store full credit card numbers.",
      Billing, None),
    KnowledgeEntry(
      "7", "Bluetooth Pairing Issues",
      "If you are having trouble pairing a Bluetooth device: 1) Make sure Bluetooth is enabled on both devices. 2) Put the device in pairing mode (usually hold power button for 5 seconds until LED flashes). 3) On your phone/computer, scan for new devices. 4) Select the device from the list. 5) If prompted, enter PIN \"0000\" or \"1234\". 6) If it still won't pair, restart both devices and try again.",
      Technical, None),
    KnowledgeEntry(
      "8", "Cancel Order",
      "You can cancel an order before it ships. Log into your account, go to Order History, select the order, and click \"Cancel Order\". If the order has already shipped, you will need to refuse delivery or initiate a return once received. Cancellations are processed immediately and refunds take 3-5 business days.",
      Faq, None)
  ]

  // ---------------------------------------------------------------------------
  // Keyword fallback
  // ---------------------------------------------------------------------------

  /** `query.toLowerCase().split(' ')`: empty keywords included. */
  function Keywords(query: string): seq<string>
  {
    Split(ToLower(query), ' ')
  }

  /** +2 for a keyword in the lower-cased title, +1 for one in the lower-cased content. */
  function KeywordPoints(entry: KnowledgeEntry, keyword: string): (n: nat)
    ensures n <= 3
    ensures Contains(ToLower(entry.title), keyword) <==> n >= 2
    ensures Contains(ToLower(entry.content), keyword) <==> n % 2 == 1
    ensures Contains(ToLower(entry.title), keyword) && Contains(ToLower(entry.content), keyword) <==> n == 3
    ensures !Contains(ToLower(entry.title), keyword) && !Contains(ToLower(entry.content), keyword) <==> n == 0
  {
    (if Contains(ToLower(entry.title), keyword) then 2 else 0)
    + (if Contains(ToLower(entry.content), keyword) then 1 else 0)
  }

  /** The fallback score: the sum of `KeywordPoints` over every keyword. */
  function KeywordScore(entry: KnowledgeEntry, keywords: seq<string>): (n: nat)
    ensures n <= 3 * |keywords|
  {
    if |keywords| == 0 then 0 else KeywordPoints(entry, keywords[0]) + KeywordScore(entry, keywords[1..])
  }

  function ScoreAll(base: seq<KnowledgeEntry>, keywords: seq<string>): (scored: seq<ScoredEntry>)
    ensures |scored| == |base|
    ensures forall i :: 0 <= i < |base| ==>
      scored[i] == ScoredEntry(base[i], KeywordScore(base[i], keywords) as real)
  {
    seq(|base|, i requires 0 <= i < |base| => ScoredEntry(base[i], KeywordScore(base[i], keywords) as real))
  }

  predicate Relevant(s: ScoredEntry) { s.score > 0.0 }

  /** The scored entries of `base` with a positive score, in declared order. */
  function RelevantScored(base: seq<KnowledgeEntry>, keywords: seq<string>): (relevant: seq<ScoredEntry>)
    ensures |relevant| <= |base|
    ensures forall i :: 0 <= i < |relevant| ==>
      relevant[i].entry in base && relevant[i].score > 0.0
      && relevant[i].score == KeywordScore(relevant[i].entry, keywords) as real
    ensures forall j :: 0 <= j < |base| && KeywordScore(base[j], keywords) > 0 ==>
      ScoredEntry(base[j], KeywordScore(base[j], keywords) as real) in relevant
  {
    var scored := ScoreAll(base, keywords);
    var relevant := Filter(scored, Relevant);
    forall j | 0 <= j < |base| && KeywordScore(base[j], keywords) > 0
      ensures ScoredEntry(base[j], KeywordScore(base[j], keywords) as real) in relevant
    {
      assert scored[j] in scored && Relevant(scored[j]);
    }
    forall i | 0 <= i < |relevant|
      ensures relevant[i].entry in base && relevant[i].score == KeywordScore(relevant[i].entry, keywords) as real
    {
      var j :| 0 <= j < |scored| && scored[j] == relevant[i];
    }
    relevant
  }

  /** Score, drop the zero scores and sort by score, ties kept in declared order. */
  function KeywordRanking(base: seq<KnowledgeEntry>, query: string): (ranked: seq<ScoredEntry>)
    ensures |ranked| <= |base|
    ensures Descending(ranked, ScoreOf)
    ensures forall i :: 0 <= i < |ranked| ==>
      ranked[i].entry in base && ranked[i].score > 0.0
      && ranked[i].score == KeywordScore(ranked[i].entry, Keywords(query)) as real
    ensures forall j :: 0 <= j < |base| && KeywordScore(base[j], Keywords(query)) > 0 ==>
      ScoredEntry(base[j], KeywordScore(base[j], Keywords(query)) as real) in ranked
  {
    var relevant := RelevantScored(base, Keywords(query));
    SortKeepsElements(relevant, ScoreOf);
    SortDescending(relevant, ScoreOf)
  }

  /** The keyword fallback over the entries `base`. */
  function KeywordSearch(base: seq<KnowledgeEntry>, query: string, topK: int): (results: seq<ScoredEntry>)
    ensures results <= KeywordRanking(base, query)
    ensures topK >= 0 ==> |results| == if topK < |KeywordRanking(base, query)| then topK else |KeywordRanking(base, query)|
    ensures topK < 0 ==> |results| == if |KeywordRanking(base, query)| + topK < 0 then 0 else |KeywordRanking(base, query)| + topK
    ensures |results| <= |base|
    ensures Descending(results, ScoreOf)
    ensures forall i :: 0 <= i < |results| ==>
      results[i].entry in base && results[i].score > 0.0
      && results[i].score == KeywordScore(results[i].entry, Keywords(query)) as real
  {
    var ranking := KeywordRanking(base, query);
    var results := SlicePrefix(ranking, topK);
    forall i | 0 <= i < |results|
      ensures results[i].entry in base && results[i].score > 0.0
        && results[i].score == KeywordScore(results[i].entry, Keywords(query)) as real
    {
      assert results[i] == ranking[i];
    }
    results
  }

  // ---------------------------------------------------------------------------
  // Semantic path
  // ---------------------------------------------------------------------------

  /** An entry without an embedding scores 0. */
  function SemanticScore(entry: KnowledgeEntry, similarity: Embedding -> real): real
  {
    match entry.embedding
    case None => 0.0
    case Some(v) => similarity(v)
  }

  /** The entries searched: all of them, or those of the requested category. */
  function SearchSpace(embedded: seq<KnowledgeEntry>, category: Option<KbCategory>): (space: seq<KnowledgeEntry>)
    ensures forall i :: 0 <= i < |space| ==> space[i] in embedded
    ensures category.Some? ==> forall i :: 0 <= i < |space| ==> space[i].category == category.value
    ensures category.Some? ==> forall e :: e in embedded && e.category == category.value ==> e in space
    ensures category.None? ==> space == embedded
  {
    match category
    case None => embedded
    case Some(c) => Filter(embedded, (e: KnowledgeEntry) => e.category == c)
  }

  function SemanticScored(space: seq<KnowledgeEntry>, similarity: Embedding -> real): (scored: seq<ScoredEntry>)
    ensures |scored| == |space|
    ensures forall i :: 0 <= i < |space| ==> scored[i] == ScoredEntry(space[i], SemanticScore(space[i], similarity))
  {
    seq(|space|, i requires 0 <= i < |space| => ScoredEntry(space[i], SemanticScore(space[i], similarity)))
  }

  /** Every entry of `space` with its similarity score, most similar first, ties in declared order. */
  function SemanticRanking(space: seq<KnowledgeEntry>, similarity: Embedding -> real): (ranked: seq<ScoredEntry>)
    ensures |ranked| == |space|
    ensures Descending(ranked, ScoreOf)
    ensures forall i :: 0 <= i < |ranked| ==>
      ranked[i].entry in space && ranked[i].score == SemanticScore(ranked[i].entry, similarity)
    ensures forall j :: 0 <= j < |space| ==> ScoredEntry(space[j], SemanticScore(space[j], similarity)) in ranked
  {
    var scored := SemanticScored(space, similarity);
    SortKeepsElements(scored, ScoreOf);
    forall i | 0 <= i < |SortDescending(scored, ScoreOf)|
      ensures SortDescending(scored, ScoreOf)[i].entry in space
    {
      var j :| 0 <= j < |scored| && scored[j] == SortDescending(scored, ScoreOf)[i];
    }
    SortDescending(scored, ScoreOf)
  }

  /** The semantic path with `similarity` measuring against the query's embedding. */
  function SemanticSearch(embedded: seq<KnowledgeEntry>, category: Option<KbCategory>, topK: int,
                          similarity: Embedding -> real): (results: seq<ScoredEntry>)
    ensures results <= SemanticRanking(SearchSpace(embedded, category), similarity)
    ensures topK >= 0 ==>
      (|results| == if topK < |SearchSpace(embedded, category)| then topK else |SearchSpace(embedded, category)|)
    ensures Descending(results, ScoreOf)
    ensures forall i :: 0 <= i < |results| ==>
      results[i].entry in embedded
      && results[i].score == SemanticScore(results[i].entry, similarity)
      && (results[i].entry.embedding.None? ==> results[i].score == 0.0)
      && (category.Some? ==> results[i].entry.category == category.value)
  {
    SlicePrefix(SemanticRanking(SearchSpace(embedded, category), similarity), topK)
  }

  // ---------------------------------------------------------------------------
  // Module state: initializeKnowledgeBase, searchKnowledgeBase, addKnowledgeEntry
  // ---------------------------------------------------------------------------

  /**
   The module's mutable state. `embedded` is `embeddedKnowledgeBase`;
   `aliased` records that a failed initialisation made it the very array
   `KNOWLEDGE_BASE`, so that entries pushed onto one appear in the other.
   */
  datatype KbState = KbState(embedded: seq<KnowledgeEntry>, aliased: bool)

  /** Before any call: an empty embedded base of its own. */
  const InitialState: KbState := KbState([], false)

  /** `KNOWLEDGE_BASE` as it stands: what the keyword fallback scores. */
  function FallbackBase(st: KbState): (base: seq<KnowledgeEntry>)
    ensures !st.aliased ==> base == StaticKnowledgeBase
    ensures st.aliased ==> base == st.embedded
  {
    if st.aliased then st.embedded else StaticKnowledgeBase
  }

  /** The static articles with the `i`-th embedding attached to the `i`-th article, when there is one. */
  function WithEmbeddings(base: seq<KnowledgeEntry>, embeddings: seq<Embedding>): (embedded: seq<KnowledgeEntry>)
    ensures |embedded| == |base|
    ensures forall i :: 0 <= i < |base| ==>
      embedded[i] == base[i].(embedding := if i < |embeddings| then Some(embeddings[i]) else None)
  {
    seq(|base|, i requires 0 <= i < |base| =>
      base[i].(embedding := if i < |embeddings| then Some(embeddings[i]) else None))
  }

  /**
   `initializeKnowledgeBase()`. `embeddings` is the embedding service's answer
   for the static articles' contents, `None` when the call fails.
   */
  function InitializeKnowledgeBase(st: KbState, embeddings: Option<seq<Embedding>>): (next: KbState)
    // An embedded base that is already non-empty is left alone.
    ensures |st.embedded| > 0 ==> next == st
    // On failure the embedded base becomes the static array itself.
    ensures |st.embedded| == 0 && embeddings.None? ==> next.aliased && next.embedded == StaticKnowledgeBase
    // On success it is a fresh copy of the static articles carrying the embeddings.
    ensures |st.embedded| == 0 && embeddings.Some? ==>
      !next.aliased && next.embedded == WithEmbeddings(StaticKnowledgeBase, embeddings.value)
    ensures |next.embedded| > 0
  {
    if |st.embedded| > 0 then st
    else match embeddings
      case None => KbState(StaticKnowledgeBase, true)
      case Some(es) => KbState(WithEmbeddings(StaticKnowledgeBase, es), false)
  }

  /**
   The search proper, on the state after initialisation. `queryEmbedding` is
   the embedding service's answer for the query (`None` when the call fails);
   `cosine` is the similarity between two embeddings.
   */
  function SearchKnowledgeBase(st: KbState, query: string, category: Option<KbCategory>,
                               topK: int, queryEmbedding: Option<Embedding>,
                               cosine: (Embedding, Embedding) -> real): (results: seq<ScoredEntry>)
    ensures topK >= 0 ==> |results| <= topK
    ensures Descending(results, ScoreOf)
    // Without a query embedding: the keyword fallback over `KNOWLEDGE_BASE`, whatever the category.
    ensures queryEmbedding.None? ==>
      results == KeywordSearch(FallbackBase(st), query, topK)
      && forall i :: 0 <= i < |results| ==> results[i].score > 0.0
    // With one: the semantic path over the embedded base.
    ensures queryEmbedding.Some? ==>
      results == SemanticSearch(st.embedded, category, topK, (v: Embedding) => cosine(queryEmbedding.value, v))
      && forall i :: 0 <= i < |results| ==>
        results[i].entry in st.embedded && (category.Some? ==> results[i].entry.category == category.value)
  {
    match queryEmbedding
    case Some(q) => SemanticSearch(st.embedded, category, topK, (v: Embedding) => cosine(q, v))
    case None => KeywordSearch(FallbackBase(st), query, topK)
  }

  datatype SearchOutcome = SearchOutcome(state: KbState, results: seq<ScoredEntry>)

  /**
   `searchKnowledgeBase(query, category, topK)`: initialise when the embedded
   base is empty (`initEmbeddings` is the service's answer to that request),
   then search.
   */
  function Search(st: KbState, initEmbeddings: Option<seq<Embedding>>, query: string,
                  category: Option<KbCategory>, topK: int, queryEmbedding: Option<Embedding>,
                  cosine: (Embedding, Embedding) -> real): (out: SearchOutcome)
    ensures out.state == InitializeKnowledgeBase(st, initEmbeddings)
    ensures |out.state.embedded| > 0
    ensures out.results == SearchKnowledgeBase(out.state, query, category, topK, queryEmbedding, cosine)
  {
    var ready := if |st.embedded| == 0 then InitializeKnowledgeBase(st, initEmbeddings) else st;
    SearchOutcome(ready, SearchKnowledgeBase(ready, query, category, topK, queryEmbedding, cosine))
  }

  /** The entry `addKnowledgeEntry` stores. */
  function NewEntry(id: string, title: string, content: string, category: KbCategory,
                    embedding: Embedding): KnowledgeEntry
  {
    KnowledgeEntry(id, title, content, category, Some(embedding))
  }

  /**
   `addKnowledgeEntry`: `embedding` is the service's answer for the content
   (`None` when the call fails and nothing is stored). The entry is pushed
   onto the embedded base, and so onto `KNOWLEDGE_BASE` when the two are the
   same array.
   */
  function AddKnowledgeEntry(st: KbState, id: string, title: string, content: string,
                             category: KbCategory, embedding: Option<Embedding>): (next: KbState)
    ensures embedding.None? ==> next == st
    ensures embedding.Some? ==>
      next.embedded == st.embedded + [NewEntry(id, title, content, category, embedding.value)]
    ensures next.aliased == st.aliased
    ensures embedding.Some? && st.aliased ==>
      FallbackBase(next) == FallbackBase(st) + [NewEntry(id, title, content, category, embedding.value)]
    ensures !st.aliased ==> FallbackBase(next) == StaticKnowledgeBase
  {
    match embedding
    case None => st
    case Some(v) => st.(embedded := st.embedded + [NewEntry(id, title, content, category, v)])
  }

  // ---------------------------------------------------------------------------
  // Properties
  // ---------------------------------------------------------------------------

  /**
   The fallback keeps the best entries: a scoring entry is left out only
   when `topK` results are returned, each scoring at least as high.
   */
  lemma KeywordSearchKeepsBest(base: seq<KnowledgeEntry>, query: string, topK: int, e: KnowledgeEntry)
    requires e in base && KeywordScore(e, Keywords(query)) > 0
    requires ScoredEntry(e, KeywordScore(e, Keywords(query)) as real) !in KeywordSearch(base, query, topK)
    ensures topK >= 0 ==> |KeywordSearch(base, query, topK)| == topK
    ensures forall i :: 0 <= i < |KeywordSearch(base, query, topK)| ==>
      KeywordSearch(base, query, topK)[i].score >= KeywordScore(e, Keywords(query)) as real
  {
    var x := ScoredEntry(e, KeywordScore(e, Keywords(query)) as real);
    var j :| 0 <= j < |base| && base[j] == e;
    assert x in KeywordRanking(base, query);
    PrefixOutranksRest(KeywordRanking(base, query), KeywordSearch(base, query, topK), ScoreOf, x);
  }

  /**
   The semantic path keeps the best entries: an entry of the search space is
   left out only when `topK` results are returned, each at least as similar.
   */
  lemma SemanticSearchKeepsBest(embedded: seq<KnowledgeEntry>, category: Option<KbCategory>, topK: int,
                                similarity: Embedding -> real, e: KnowledgeEntry)
    requires e in embedded && (category.Some? ==> e.category == category.value)
    requires ScoredEntry(e, SemanticScore(e, similarity)) !in SemanticSearch(embedded, category, topK, similarity)
    ensures topK >= 0 ==> |SemanticSearch(embedded, category, topK, similarity)| == topK
    ensures forall i :: 0 <= i < |SemanticSearch(embedded, category, topK, similarity)| ==>
      SemanticSearch(embedded, category, topK, similarity)[i].score >= SemanticScore(e, similarity)
  {
    var space := SearchSpace(embedded, category);
    var x := ScoredEntry(e, SemanticScore(e, similarity));
    assert e in space;
    var j :| 0 <= j < |space| && space[j] == e;
    assert x in SemanticRanking(space, similarity);
    PrefixOutranksRest(SemanticRanking(space, similarity), SemanticSearch(embedded, category, topK, similarity),
                       ScoreOf, x);
  }
  /** With `topK` at least the number of scoring entries, every scoring entry is returned. */
  lemma KeywordSearchComplete(base: seq<KnowledgeEntry>, query: string, topK: int, e: KnowledgeEntry)
    requires topK >= |base|
    requires e in base && KeywordScore(e, Keywords(query)) > 0
    ensures ScoredEntry(e, KeywordScore(e, Keywords(query)) as real) in KeywordSearch(base, query, topK)
  {
    var j :| 0 <= j < |base| && base[j] == e;
  }

  /** An empty keyword is contained in everything, so it adds 3 to every entry. */
  lemma {:induction false} EmptyKeywordsAddThree(entry: KnowledgeEntry, keywords: seq<string>)
    requires forall i :: 0 <= i < |keywords| ==> keywords[i] == ""
    ensures KeywordScore(entry, keywords) == 3 * |keywords|
  {
    if |keywords| > 0 {
      assert Contains(ToLower(entry.title), "") && Contains(ToLower(entry.content), "");
      EmptyKeywordsAddThree(entry, keywords[1..]);
    }
  }

  /**
   A query of spaces only (the empty query included) gives every entry the
   same score, 3 per empty keyword, so the fallback returns the first `topK`
   entries in their declared order.
   */
  lemma SpacesOnlyQueryKeepsDeclaredOrder(base: seq<KnowledgeEntry>, query: string, topK: int)
    requires forall i :: 0 <= i < |query| ==> query[i] == ' '
    ensures KeywordSearch(base, query, topK)
      == SlicePrefix(seq(|base|, i requires 0 <= i < |base| => ScoredEntry(base[i], (3 * (|query| + 1)) as real)), topK)
  {
    var keywords := Keywords(query);
    assert ToLower(query) == query;
    SplitAllSeparators(query, ' ');
    var scored := ScoreAll(base, keywords);
    var expected := seq(|base|, i requires 0 <= i < |base| => ScoredEntry(base[i], (3 * (|query| + 1)) as real));
    forall i | 0 <= i < |base|
      ensures scored[i] == expected[i]
    {
      EmptyKeywordsAddThree(base[i], keywords);
    }
    assert scored == expected;
    FilterAll(scored, Relevant);
    SortEqualKeysIdentity(scored, ScoreOf, (3 * (|query| + 1)) as real);
  }

  /** Every entry of the static knowledge base is stored without an embedding. */
  lemma StaticEntriesHaveNoEmbedding()
    ensures forall i :: 0 <= i < |StaticKnowledgeBase| ==> StaticKnowledgeBase[i].embedding.None?
  {
  }

  /**
   After a successful initialisation (or before any), the keyword fallback
   never returns an entry added through `addKnowledgeEntry`: such entries
   carry an embedding and the static articles do not.
   */
  lemma FallbackNeverReturnsAddedEntries(st: KbState, id: string, title: string, content: string,
                                         kind: KbCategory, embedding: Embedding, query: string,
                                         category: Option<KbCategory>, topK: int,
                                         cosine: (Embedding, Embedding) -> real)
    requires !st.aliased
    ensures var results := SearchKnowledgeBase(AddKnowledgeEntry(st, id, title, content, kind, Some(embedding)),
                                               query, category, topK, None, cosine);
      forall i :: 0 <= i < |results| ==> results[i].entry != NewEntry(id, title, content, kind, embedding)
  {
    var results := SearchKnowledgeBase(AddKnowledgeEntry(st, id, title, content, kind, Some(embedding)),
                                       query, category, topK, None, cosine);
    StaticEntriesHaveNoEmbedding();
    forall i | 0 <= i < |results|
      ensures results[i].entry.embedding.None?
    {
      var j :| 0 <= j < |StaticKnowledgeBase| && StaticKnowledgeBase[j] == results[i].entry;
    }
  }

  /**
   After a failed initialisation the arrays are one, so the keyword fallback
   does see added entries: one whose keywords score and that fits in `topK`
   is returned.
   */
  lemma AliasedFallbackReturnsAddedEntries(st: KbState, id: string, title: string, content: string,
                                           kind: KbCategory, embedding: Embedding, query: string,
                                           category: Option<KbCategory>, topK: int,
                                           cosine: (Embedding, Embedding) -> real)
    requires st.aliased
    requires KeywordScore(NewEntry(id, title, content, kind, embedding), Keywords(query)) > 0
    requires topK > |st.embedded|
    ensures var e := NewEntry(id, title, content, kind, embedding);
      ScoredEntry(e, KeywordScore(e, Keywords(query)) as real)
        in SearchKnowledgeBase(AddKnowledgeEntry(st, id, title, content, kind, Some(embedding)),
                               query, category, topK, None, cosine)
  {
    var e := NewEntry(id, title, content, kind, embedding);
    var next := AddKnowledgeEntry(st, id, title, content, kind, Some(embedding));
    assert e in FallbackBase(next);
    KeywordSearchComplete(FallbackBase(next), query, topK, e);
  }

  /** The first search from the initial state, with the service down, aliases the two arrays. */
  lemma FailedInitialisationAliases()
    ensures InitializeKnowledgeBase(InitialState, None) == KbState(StaticKnowledgeBase, true)
    ensures FallbackBase(InitializeKnowledgeBase(InitialState, None)) == StaticKnowledgeBase
  {
  }

  /** Initialisation happens at most once: a second call changes nothing. */
  lemma InitializeOnce(st: KbState, first: Option<seq<Embedding>>, second: Option<seq<Embedding>>)
    ensures InitializeKnowledgeBase(InitializeKnowledgeBase(st, first), second)
      == InitializeKnowledgeBase(st, first)
  {
  }

  /**
   An entry added before the first search makes the embedded base non-empty,
   so initialisation is skipped and the semantic path sees only that entry.
   */
  lemma AddBeforeInitialisationSkipsIt(id: string, title: string, content: string, kind: KbCategory,
                                       embedding: Embedding, initEmbeddings: Option<seq<Embedding>>,
                                       query: string, category: Option<KbCategory>, topK: int,
                                       queryEmbedding: Option<Embedding>, cosine: (Embedding, Embedding) -> real)
    ensures Search(AddKnowledgeEntry(InitialState, id, title, content, kind, Some(embedding)),
                   initEmbeddings, query, category, topK, queryEmbedding, cosine).state.embedded
      == [NewEntry(id, title, content, kind, embedding)]
  {
  }
}
