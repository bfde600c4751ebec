/**
 The pure parts of the chat endpoint (app/api/chat/route.ts): message
 normalisation, the sentiment and system prompt computed for a turn, and the
 results the four tools hand back to the model. The database tables, the
 embedding service's answer and the clock are explicit arguments.
 */
module ChatRoute {
  import opened JsBuiltins
  import opened Sentiment
  import Prompts
  import KnowledgeBase
  import Queries

  // ---------------------------------------------------------------------------
  // Message normalisation
  // ---------------------------------------------------------------------------

  /** One element of a message's `parts`: its `type` and its `text`. */
  datatype Part = Part(kind: string, text: string)

  /** A message as the client sends it: with `parts`, or already as `{role, content}`. */
  datatype IncomingMessage =
    | WithParts(role: string, parts: seq<Part>)
    | WithContent(role: string, content: string)

  const TextKind: string := "text"

  predicate IsTextPart(p: Part) { p.kind == TextKind }

  /** The text of the `text` parts, concatenated in order. */
  function TextOf(parts: seq<Part>): string
  {
    if |parts| == 0 then ""
    else (if IsTextPart(parts[0]) then parts[0].text else "") + TextOf(parts[1..])
  }

  /** `pieces.join('')`. */
  function Concat(pieces: seq<string>): (s: string)
    ensures |pieces| == 0 ==> s == ""
  {
    if |pieces| == 0 then "" else pieces[0] + Concat(pieces[1..])
  }

  /** `parts.map(part => part.text)`. */
  function PartTexts(parts: seq<Part>): (texts: seq<string>)
    ensures |texts| == |parts| && forall i :: 0 <= i < |parts| ==> texts[i] == parts[i].text
  {
    seq(|parts|, i requires 0 <= i < |parts| => parts[i].text)
  }

  /**
   The recursive text extraction is the route's pipeline: filter the `text`
   parts, take their `text`, join with the empty string.
   */
  lemma {:induction false} TextOfIsFilterMapJoin(parts: seq<Part>)
    ensures TextOf(parts) == Concat(PartTexts(Filter(parts, IsTextPart)))
  {
    if |parts| > 0 {
      var rest := Filter(parts[1..], IsTextPart);
      TextOfIsFilterMapJoin(parts[1..]);
      if IsTextPart(parts[0]) {
        assert Filter(parts, IsTextPart) == [parts[0]] + rest;
        ConcatPartTextsCons(parts[0], rest);
      }
    }
  }

  /** Joining the texts of `[p] + ps` puts `p`'s text in front. */
  lemma ConcatPartTextsCons(p: Part, ps: seq<Part>)
    ensures Concat(PartTexts([p] + ps)) == p.text + Concat(PartTexts(ps))
  {
    var texts := PartTexts([p] + ps);
    assert texts[1..] == PartTexts(ps);
  }

  /** Text extraction distributes over concatenation of part lists. */
  lemma {:induction false} TextOfAppend(a: seq<Part>, b: seq<Part>)
    ensures TextOf(a + b) == TextOf(a) + TextOf(b)
  {
    if |a| > 0 {
      assert (a + b)[1..] == a[1..] + b;
      TextOfAppend(a[1..], b);
    } else {
      assert a + b == b;
    }
  }

  /** Parts of other kinds contribute nothing. */
  lemma {:induction false} NonTextPartsVanish(parts: seq<Part>)
    requires forall i :: 0 <= i < |parts| ==> !IsTextPart(parts[i])
    ensures TextOf(parts) == ""
  {
    if |parts| > 0 {
      NonTextPartsVanish(parts[1..]);
    }
  }

  /** One message in `{role, content}` form. */
  function Normalize(m: IncomingMessage): (n: Message)
    ensures n.role == m.role
    ensures m.WithContent? ==> n.content == m.content
    ensures m.WithParts? ==> n.content == Concat(PartTexts(Filter(m.parts, IsTextPart)))
  {
    match m
    case WithContent(role, content) => Message(role, content)
    case WithParts(role, parts) =>
      TextOfIsFilterMapJoin(parts);
      Message(role, TextOf(parts))
  }

  /** `messages.map(normalise)`: same count, same order. */
  function NormalizeMessages(messages: seq<IncomingMessage>): (normalized: seq<Message>)
    ensures |normalized| == |messages|
    ensures forall i :: 0 <= i < |messages| ==>
      normalized[i].role == messages[i].role
      && (messages[i].WithContent? ==> normalized[i].content == messages[i].content)
      && (messages[i].WithParts? ==> normalized[i].content == Concat(PartTexts(Filter(messages[i].parts, IsTextPart))))
  {
    seq(|messages|, i requires 0 <= i < |messages| => Normalize(messages[i]))
  }

  /** Normalisation works message by message. */
  lemma NormalizeAppend(a: seq<IncomingMessage>, b: seq<IncomingMessage>)
    ensures NormalizeMessages(a + b) == NormalizeMessages(a) + NormalizeMessages(b)
  {
    var n, na, nb := NormalizeMessages(a + b), NormalizeMessages(a), NormalizeMessages(b);
    forall i | 0 <= i < |n|
      ensures n[i] == (na + nb)[i]
    {
      if i < |a| {
        assert (a + b)[i] == a[i] && n[i] == Normalize(a[i]) == na[i];
      } else {
        assert (a + b)[i] == b[i - |a|] && n[i] == Normalize(b[i - |a|]) == nb[i - |a|];
      }
    }
    assert n == na + nb;
  }

  /** Messages already in `{role, content}` form come out as they went in. */
  lemma NormalizeKeepsContentMessages(messages: seq<Message>)
    ensures NormalizeMessages(seq(|messages|, i requires 0 <= i < |messages| =>
      WithContent(messages[i].role, messages[i].content))) == messages
  {
  }

  // ---------------------------------------------------------------------------
  // Sentiment and system prompt of a turn
  // ---------------------------------------------------------------------------

  const RecentWindow: nat := 3

  /** `normalizedMessages.slice(-3)`. */
  function RecentMessages(normalized: seq<Message>): (recent: seq<Message>)
    ensures |recent| == if |normalized| < 3 then |normalized| else 3
    ensures normalized == normalized[..|normalized| - |recent|] + recent
  {
    SliceLast(normalized, RecentWindow)
  }

  /** What the endpoint computes before calling the model. */
  datatype Turn = Turn(normalized: seq<Message>, sentiment: Label, systemPrompt: string)

  /** The request's `messages`, `conversationId` and `customerEmail`, turned into a turn. */
  function PrepareTurn(messages: seq<IncomingMessage>, conversationId: Option<string>,
                       customerEmail: Option<string>): (turn: Turn)
    ensures turn.normalized == NormalizeMessages(messages)
    ensures turn.sentiment == AnalyzeSentiment(RecentMessages(turn.normalized))
    ensures turn.systemPrompt == Prompts.GetSystemPrompt(Prompts.PromptContext(Some(turn.sentiment), customerEmail, conversationId))
    ensures |turn.systemPrompt| >= |Prompts.BasePrompt| && turn.systemPrompt[..|Prompts.BasePrompt|] == Prompts.BasePrompt
  {
    var normalized := NormalizeMessages(messages);
    var sentiment := AnalyzeSentiment(RecentMessages(normalized));
    Turn(normalized, sentiment, Prompts.GetSystemPrompt(Prompts.PromptContext(Some(sentiment), customerEmail, conversationId)))
  }

  /**
   Only the last three messages, of any role, reach the classifier: two
   conversations ending in the same three messages get the same sentiment
   and the same system prompt, whatever came before.
   */
  lemma OnlyLastThreeMessagesCount(earlier1: seq<IncomingMessage>, earlier2: seq<IncomingMessage>,
                                   last: seq<IncomingMessage>, conversationId: Option<string>,
                                   customerEmail: Option<string>)
    requires |last| == 3
    ensures PrepareTurn(earlier1 + last, conversationId, customerEmail).sentiment
      == PrepareTurn(earlier2 + last, conversationId, customerEmail).sentiment
    ensures PrepareTurn(earlier1 + last, conversationId, customerEmail).systemPrompt
      == PrepareTurn(earlier2 + last, conversationId, customerEmail).systemPrompt
  {
    NormalizeAppend(earlier1, last);
    NormalizeAppend(earlier2, last);
    var n1 := NormalizeMessages(earlier1) + NormalizeMessages(last);
    var n2 := NormalizeMessages(earlier2) + NormalizeMessages(last);
    assert RecentMessages(n1) == n1[|n1| - 3..] == NormalizeMessages(last);
    assert RecentMessages(n2) == n2[|n2| - 3..] == NormalizeMessages(last);
  }

  /** With three or fewer messages the classifier sees the whole conversation. */
  lemma ShortConversationsAreClassifiedWhole(messages: seq<IncomingMessage>, conversationId: Option<string>,
                                             customerEmail: Option<string>)
    requires |messages| <= 3
    ensures PrepareTurn(messages, conversationId, customerEmail).sentiment
      == AnalyzeSentiment(NormalizeMessages(messages))
  {
    var n := NormalizeMessages(messages);
    assert n[..|n| - |RecentMessages(n)|] == [];
  }

  // ---------------------------------------------------------------------------
  // search_knowledge_base
  // ---------------------------------------------------------------------------

  /** One search hit as the tool reports it. */
  datatype SearchHit = SearchHit(title: string, content: string, relevance: real)

  /** `results.map(r => ({title, content, relevance: r.score}))`. */
  function ShapeSearchResults(results: seq<KnowledgeBase.ScoredEntry>): (hits: seq<SearchHit>)
    ensures |hits| == |results|
    ensures forall i :: 0 <= i < |results| ==>
      hits[i] == SearchHit(results[i].entry.title, results[i].entry.content, results[i].score)
    ensures Descending(results, KnowledgeBase.ScoreOf) ==>
      forall i, j :: 0 <= i < j < |hits| ==> hits[i].relevance >= hits[j].relevance
  {
    seq(|results|, i requires 0 <= i < |results| =>
      SearchHit(results[i].entry.title, results[i].entry.content, results[i].score))
  }

  datatype SearchToolOutcome = SearchToolOutcome(kb: KnowledgeBase.KbState, hits: seq<SearchHit>)

  /**
   The `search_knowledge_base` tool: the knowledge-base search with the
   default three results, reshaped into hits (most relevant first; without a
   query embedding every hit has a positive keyword score). `initEmbeddings`
   is the embedding service's answer should the search have to initialise
   the knowledge base.
   */
  function SearchTool(kb: KnowledgeBase.KbState, initEmbeddings: Option<seq<KnowledgeBase.Embedding>>,
                      query: string, category: Option<KnowledgeBase.KbCategory>,
                      queryEmbedding: Option<KnowledgeBase.Embedding>,
                      cosine: (KnowledgeBase.Embedding, KnowledgeBase.Embedding) -> real): (out: SearchToolOutcome)
    ensures out.kb == KnowledgeBase.InitializeKnowledgeBase(kb, initEmbeddings)
    ensures var results := KnowledgeBase.SearchKnowledgeBase(out.kb, query, category, KnowledgeBase.DefaultTopK,
                                                             queryEmbedding, cosine);
      |out.hits| == |results|
      && forall i :: 0 <= i < |results| ==>
        out.hits[i] == SearchHit(results[i].entry.title, results[i].entry.content, results[i].score)
    ensures |out.hits| <= 3
    ensures forall i, j :: 0 <= i < j < |out.hits| ==> out.hits[i].relevance >= out.hits[j].relevance
    ensures queryEmbedding.None? ==> forall i :: 0 <= i < |out.hits| ==> out.hits[i].relevance > 0.0
  {
    var found := KnowledgeBase.Search(kb, initEmbeddings, query, category, KnowledgeBase.DefaultTopK,
                                      queryEmbedding, cosine);
    SearchToolOutcome(found.state, ShapeSearchResults(found.results))
  }

  // ---------------------------------------------------------------------------
  // create_ticket
  // ---------------------------------------------------------------------------

  datatype TicketPriority = Low | Medium | High | Urgent

  datatype TicketCategory = Technical | Billing | Account | Product | Other

  function PriorityName(p: TicketPriority): string
  {
    match p
    case Low => "low"
    case Medium => "medium"
    case High => "high"
    case Urgent => "urgent"
  }

  function CategoryName(c: TicketCategory): string
  {
    match c
    case Technical => "technical"
    case Billing => "billing"
    case Account => "account"
    case Product => "product"
    case Other => "other"
  }

  /** The tool's arguments, already validated. */
  datatype TicketRequest = TicketRequest(
    subject: string,
    priority: TicketPriority,
    category: TicketCategory,
    description: string,
    customerEmail: string)

  datatype TicketReceipt = TicketReceipt(ticketId: int, estimatedResponseTime: string, message: string)

  const TicketCreatedMessage: string := "Ticket created successfully. A human agent will reach out soon."

  /** The response time promised for a priority. */
  function EstimatedResponseTime(p: TicketPriority): string
  {
    if p == Urgent then "1 hour" else if p == High then "4 hours" else "24 hours"
  }

  /** The hours a promised response time stands for. */
  function PromisedHours(t: string): int
  {
    if t == "1 hour" then 1 else if t == "4 hours" then 4 else if t == "24 hours" then 24 else 0
  }

  function PriorityRank(p: TicketPriority): (rank: nat)
    ensures rank <= 3
  {
    match p
    case Low => 0
    case Medium => 1
    case High => 2
    case Urgent => 3
  }

  /**
   A more urgent ticket is never promised a slower response; urgent, high and
   the rest get three different promises.
   */
  lemma ResponseTimeFollowsPriority(p: TicketPriority, q: TicketPriority)
    requires PriorityRank(p) <= PriorityRank(q)
    ensures PromisedHours(EstimatedResponseTime(q)) <= PromisedHours(EstimatedResponseTime(p))
    ensures PromisedHours(EstimatedResponseTime(p)) in {1, 4, 24}
    ensures EstimatedResponseTime(p) == EstimatedResponseTime(q) <==>
      p == q || (PriorityRank(p) <= 1 && PriorityRank(q) <= 1)
  {
  }

  datatype TicketOutcome = TicketOutcome(table: Queries.TicketTable, receipt: TicketReceipt)

  /**
   The `create_ticket` tool: stores the ticket and reports its id and promised
   response time. `now` is the route's `new Date()`, which becomes `createdAt`;
   `dbNow` is the database's `defaultNow()` at the insert, which becomes
   `updatedAt`.
   */
  function CreateTicketTool(table: Queries.TicketTable, request: TicketRequest, conversationId: Option<string>,
                            now: int, dbNow: int): (out: TicketOutcome)
    ensures out.receipt.ticketId == table.nextId
    ensures out.receipt.message == TicketCreatedMessage
    ensures out.receipt.estimatedResponseTime == EstimatedResponseTime(request.priority)
    ensures |out.table.rows| == |table.rows| + 1 && out.table.rows[..|table.rows|] == table.rows
    ensures var t := out.table.rows[|table.rows|];
      t.id == out.receipt.ticketId && t.status == Queries.OpenStatus
      && t.subject == request.subject && t.description == request.description
      && t.customerEmail == request.customerEmail && t.conversationId == conversationId
      && t.priority == PriorityName(request.priority) && t.category == CategoryName(request.category)
      && t.createdAt == now && t.updatedAt == dbNow
  {
    var created := Queries.CreateTicket(table,
      Queries.NewTicket(request.subject, PriorityName(request.priority), CategoryName(request.category),
                        request.description, request.customerEmail, conversationId, now), dbNow);
    TicketOutcome(created.table, TicketReceipt(created.ticket.id, EstimatedResponseTime(request.priority),
                                               TicketCreatedMessage))
  }

  /** Tickets created one after another get distinct ids. */
  lemma TicketToolIdsDistinct(table: Queries.TicketTable, r1: TicketRequest, r2: TicketRequest,
                              c1: Option<string>, c2: Option<string>, t1: int, t2: int, d1: int, d2: int)
    ensures var first := CreateTicketTool(table, r1, c1, t1, d1);
      CreateTicketTool(first.table, r2, c2, t2, d2).receipt.ticketId != first.receipt.ticketId
  {
  }

  // ---------------------------------------------------------------------------
  // get_order_status
  // ---------------------------------------------------------------------------

  const OrderNotFoundMessage: string := "Order not found. Please verify the order ID and email address."

  datatype OrderReport =
    | OrderNotFound(message: string)
    | OrderFound(orderId: string, status: string, items: Queries.JsonText, total: int,
                 estimatedDelivery: Option<int>, trackingNumber: Option<string>)

  /** The `get_order_status` tool. */
  function OrderStatusTool(orders: seq<Queries.Order>, orderId: string, email: string): (report: OrderReport)
    ensures report.OrderNotFound? <==>
      forall i :: 0 <= i < |orders| ==> !(orders[i].id == orderId && orders[i].customerEmail == email)
    ensures report.OrderNotFound? ==> report.message == OrderNotFoundMessage
    ensures report.OrderFound? ==>
      (report.orderId == orderId
       && exists o :: (o in orders && o.id == orderId && o.customerEmail == email
                       && report == OrderFound(o.id, o.status, o.items, o.total, o.estimatedDelivery, o.trackingNumber)))
  {
    match Queries.GetOrderStatus(orders, orderId, email)
    case None => OrderNotFound(OrderNotFoundMessage)
    case Some(o) => OrderFound(o.id, o.status, o.items, o.total, o.estimatedDelivery, o.trackingNumber)
  }

  /** Asked with another customer's e-mail, the tool reveals nothing about an order. */
  lemma OrderToolHidesOtherCustomersOrders(orders: seq<Queries.Order>, k: nat, email: string)
    requires Queries.OrderIdsUnique(orders)
    requires k < |orders| && orders[k].customerEmail != email
    ensures OrderStatusTool(orders, orders[k].id, email) == OrderNotFound(OrderNotFoundMessage)
  {
    Queries.OrderHiddenFromOtherEmails(orders, k, email);
  }

  /** Asked by the order's owner, the tool reports that order's details. */
  lemma OrderToolReportsOwnOrder(orders: seq<Queries.Order>, k: nat)
    requires Queries.OrderIdsUnique(orders)
    requires k < |orders|
    ensures var o := orders[k];
      OrderStatusTool(orders, o.id, o.customerEmail)
        == OrderFound(o.id, o.status, o.items, o.total, o.estimatedDelivery, o.trackingNumber)
  {
    Queries.OrderFoundByOwner(orders, k);
  }

  // ---------------------------------------------------------------------------
  // transfer_to_agent
  // ---------------------------------------------------------------------------

  datatype Urgency = NormalUrgency | HighUrgency

  datatype TransferReport = TransferReport(transferred: bool, message: string, estimatedWaitTime: string)

  const TransferMessage: string := "Connecting you with a human agent..."

  /** The `transfer_to_agent` tool; the stated reason does not change the report. */
  function TransferToAgent(reason: string, urgency: Urgency): (report: TransferReport)
    ensures report.transferred && report.message == TransferMessage
    ensures report.estimatedWaitTime == (if urgency == HighUrgency then "2 minutes" else "5 minutes")
  {
    TransferReport(true, TransferMessage, if urgency == HighUrgency then "2 minutes" else "5 minutes")
  }

  /** The report depends on the urgency alone, and the two urgencies get different waits. */
  lemma TransferDependsOnlyOnUrgency(r1: string, r2: string, u1: Urgency, u2: Urgency)
    ensures TransferToAgent(r1, u1) == TransferToAgent(r2, u2) <==> u1 == u2
  {
    if u1 != u2 {
      assert TransferToAgent(r1, u1).estimatedWaitTime[0] != TransferToAgent(r2, u2).estimatedWaitTime[0];
    }
  }
}
