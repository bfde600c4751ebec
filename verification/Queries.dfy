/**
 The database operations of lib/db/queries.ts over in-memory tables. A table
 is a sequence of rows in insertion order; each `new Date()` read and each
 database `defaultNow()` becomes an argument of its own (milliseconds since
 the epoch), and the `serial` ticket id becomes an explicit counter kept
 next to the ticket rows. Row shapes follow lib/db/schema.ts.
 */
module Queries {
  import opened JsBuiltins

  /** A `jsonb` column, kept as the text of its JSON document. */
  type JsonText = string

  /** A row of the `tickets` table. */
  datatype Ticket = Ticket(
    id: int,
    conversationId: Option<string>,
    customerEmail: string,
    subject: string,
    description: string,
    category: string,
    priority: string,
    status: string,
    assignedTo: Option<string>,
    resolution: Option<string>,
    createdAt: int,
    updatedAt: int,
    resolvedAt: Option<int>)

  /** The ticket rows and the next value of the `serial` id sequence. */
  datatype TicketTable = TicketTable(rows: seq<Ticket>, nextId: int)

  /** A row of the `orders` table. */
  datatype Order = Order(
    id: string,
    customerEmail: string,
    status: string,
    items: JsonText,
    total: int,
    trackingNumber: Option<string>,
    estimatedDelivery: Option<int>,
    createdAt: int,
    updatedAt: int)

  /** A row of the `conversations` table. */
  datatype Conversation = Conversation(
    id: string,
    customerEmail: string,
    status: string,
    sentiment: Option<string>,
    createdAt: int,
    updatedAt: int)

  const OpenStatus: string := "open"
  const ActiveStatus: string := "active"
  const ResolvedStatus: string := "resolved"
  const ClosedStatus: string := "closed"

  /** The `limit` both e-mail listings use when none is given. */
  const DefaultListLimit: nat := 10

  // ---------------------------------------------------------------------------
  // Listing by e-mail, newest first
  // ---------------------------------------------------------------------------

  /**
   `select … where <matches> order by createdAt desc limit <limit>`. Rows
   with equal `createdAt` stay in insertion order.
   */
  function NewestFirst<T>(rows: seq<T>, matches: T -> bool, createdAt: T -> real, limit: nat): (r: seq<T>)
    ensures |r| <= limit
    ensures |r| == if |Filter(rows, matches)| < limit then |Filter(rows, matches)| else limit
    ensures forall i :: 0 <= i < |r| ==> r[i] in rows && matches(r[i])
    ensures forall i, j :: 0 <= i < j < |r| ==> createdAt(r[i]) >= createdAt(r[j])
    ensures r <= SortDescending(Filter(rows, matches), createdAt)
  {
    var matching := Filter(rows, matches);
    SortKeepsElements(matching, createdAt);
    SlicePrefix(SortDescending(matching, createdAt), limit)
  }

  /**
   A matching row is left out of a listing only when the listing is full of
   rows at least as new as it.
   */
  lemma NewestFirstKeepsNewest<T>(rows: seq<T>, matches: T -> bool, createdAt: T -> real, limit: nat, x: T)
    requires x in rows && matches(x)
    requires x !in NewestFirst(rows, matches, createdAt, limit)
    ensures |NewestFirst(rows, matches, createdAt, limit)| == limit
    ensures forall i :: 0 <= i < |NewestFirst(rows, matches, createdAt, limit)| ==>
      createdAt(NewestFirst(rows, matches, createdAt, limit)[i]) >= createdAt(x)
  {
    var matching := Filter(rows, matches);
    var ranked := SortDescending(matching, createdAt);
    SortKeepsElements(matching, createdAt);
    var k :| 0 <= k < |matching| && matching[k] == x;
    PrefixOutranksRest(ranked, NewestFirst(rows, matches, createdAt, limit), createdAt, x);
  }

  /** With room for at least one row, the listing starts with a row at least as new as any matching row. */
  lemma NewestFirstHead<T>(rows: seq<T>, matches: T -> bool, createdAt: T -> real, limit: nat, x: T)
    requires limit >= 1 && x in rows && matches(x)
    ensures |NewestFirst(rows, matches, createdAt, limit)| >= 1
    ensures createdAt(NewestFirst(rows, matches, createdAt, limit)[0]) >= createdAt(x)
  {
    var matching := Filter(rows, matches);
    var ranked := SortDescending(matching, createdAt);
    SortKeepsElements(matching, createdAt);
    var j :| 0 <= j < |matching| && matching[j] == x;
    var k :| 0 <= k < |ranked| && ranked[k] == x;
    if k > 0 {
      assert createdAt(ranked[0]) >= createdAt(ranked[k]);
    }
  }

  function TicketCreatedAt(t: Ticket): real { t.createdAt as real }

  function OrderCreatedAt(o: Order): real { o.createdAt as real }

  /** `getTicketsByEmail(email, limit)`. */
  function GetTicketsByEmail(tickets: TicketTable, email: string, limit: nat): (r: seq<Ticket>)
    ensures |r| <= limit
    ensures forall i :: 0 <= i < |r| ==> r[i] in tickets.rows && r[i].customerEmail == email
    ensures forall i, j :: 0 <= i < j < |r| ==> r[i].createdAt >= r[j].createdAt
  {
    NewestFirst(tickets.rows, (t: Ticket) => t.customerEmail == email, TicketCreatedAt, limit)
  }

  /** `getOrdersByEmail(email, limit)`. */
  function GetOrdersByEmail(orders: seq<Order>, email: string, limit: nat): (r: seq<Order>)
    ensures |r| <= limit
    ensures forall i :: 0 <= i < |r| ==> r[i] in orders && r[i].customerEmail == email
    ensures forall i, j :: 0 <= i < j < |r| ==> r[i].createdAt >= r[j].createdAt
  {
    NewestFirst(orders, (o: Order) => o.customerEmail == email, OrderCreatedAt, limit)
  }

  /** A customer's order is missing from the listing only when the listing holds `limit` newer-or-equal orders. */
  lemma OrdersByEmailKeepsNewest(orders: seq<Order>, email: string, limit: nat, o: Order)
    requires o in orders && o.customerEmail == email
    requires o !in GetOrdersByEmail(orders, email, limit)
    ensures |GetOrdersByEmail(orders, email, limit)| == limit
    ensures forall i :: 0 <= i < |GetOrdersByEmail(orders, email, limit)| ==>
      GetOrdersByEmail(orders, email, limit)[i].createdAt >= o.createdAt
  {
    NewestFirstKeepsNewest(orders, (x: Order) => x.customerEmail == email, OrderCreatedAt, limit, o);
  }

  /** A customer's ticket is missing from the listing only when the listing holds `limit` newer-or-equal tickets. */
  lemma TicketsByEmailKeepsNewest(tickets: TicketTable, email: string, limit: nat, t: Ticket)
    requires t in tickets.rows && t.customerEmail == email
    requires t !in GetTicketsByEmail(tickets, email, limit)
    ensures |GetTicketsByEmail(tickets, email, limit)| == limit
    ensures forall i :: 0 <= i < |GetTicketsByEmail(tickets, email, limit)| ==>
      GetTicketsByEmail(tickets, email, limit)[i].createdAt >= t.createdAt
  {
    NewestFirstKeepsNewest(tickets.rows, (x: Ticket) => x.customerEmail == email, TicketCreatedAt, limit, t);
  }

  /**
   A customer with no more tickets than the default `limit` of 10 sees every
   one of them when the listing is asked for without a limit.
   */
  lemma DefaultListingShowsEveryTicket(tickets: TicketTable, email: string, t: Ticket)
    requires t in tickets.rows && t.customerEmail == email
    requires |Filter(tickets.rows, (x: Ticket) => x.customerEmail == email)| <= DefaultListLimit
    ensures t in GetTicketsByEmail(tickets, email, DefaultListLimit)
  {
    var matching := Filter(tickets.rows, (x: Ticket) => x.customerEmail == email);
    var sorted := SortDescending(matching, TicketCreatedAt);
    var listed := GetTicketsByEmail(tickets, email, DefaultListLimit);
    assert listed <= sorted && |listed| == |sorted|;
    assert listed == sorted;
    SortKeepsElements(matching, TicketCreatedAt);
    var k :| 0 <= k < |matching| && matching[k] == t;
  }

  // ---------------------------------------------------------------------------
  // Tickets
  // ---------------------------------------------------------------------------

  /** The fields `createTicket` receives. */
  datatype NewTicket = NewTicket(
    subject: string,
    priority: string,
    category: string,
    description: string,
    customerEmail: string,
    conversationId: Option<string>,
    createdAt: int)

  /** Every row has an id below the sequence's next value, and no two rows share an id. */
  ghost predicate TicketsWellFormed(table: TicketTable)
  {
    && (forall i :: 0 <= i < |table.rows| ==> table.rows[i].id < table.nextId)
    && (forall i, j :: 0 <= i < j < |table.rows| ==> table.rows[i].id != table.rows[j].id)
  }

  datatype Created = Created(table: TicketTable, ticket: Ticket)

  /**
   `createTicket(data)`: the row gets the given fields, the next serial id,
   status `open`, and no assignee, resolution or resolution time. `updatedAt`
   is not in `data`: the database fills it with `defaultNow()`, the instant
   `dbNow` of the insert.
   */
  function CreateTicket(table: TicketTable, data: NewTicket, dbNow: int): (out: Created)
    ensures out.ticket.id == table.nextId && out.table.nextId == table.nextId + 1
    ensures out.table.rows == table.rows + [out.ticket]
    ensures out.ticket.status == OpenStatus
    ensures out.ticket.subject == data.subject && out.ticket.description == data.description
      && out.ticket.priority == data.priority && out.ticket.category == data.category
      && out.ticket.customerEmail == data.customerEmail
      && out.ticket.conversationId == data.conversationId
      && out.ticket.createdAt == data.createdAt && out.ticket.updatedAt == dbNow
    ensures out.ticket.assignedTo.None? && out.ticket.resolution.None? && out.ticket.resolvedAt.None?
  {
    var ticket := Ticket(table.nextId, data.conversationId, data.customerEmail, data.subject,
                         data.description, data.category, data.priority, OpenStatus,
                         None, None, data.createdAt, dbNow, None);
    Created(TicketTable(table.rows + [ticket], table.nextId + 1), ticket)
  }

  /** Creating a ticket keeps ids unique: the new id belongs to no earlier ticket. */
  lemma CreateTicketKeepsWellFormed(table: TicketTable, data: NewTicket, now: int)
    requires TicketsWellFormed(table)
    ensures TicketsWellFormed(CreateTicket(table, data, now).table)
    ensures forall i :: 0 <= i < |table.rows| ==> table.rows[i].id != CreateTicket(table, data, now).ticket.id
  {
  }

  /** A freshly created ticket heads its customer's listing when every earlier ticket is older. */
  lemma CreatedTicketIsListed(table: TicketTable, data: NewTicket, now: int, limit: nat)
    requires limit >= 1
    requires forall i :: 0 <= i < |table.rows| ==> table.rows[i].createdAt < data.createdAt
    ensures |GetTicketsByEmail(CreateTicket(table, data, now).table, data.customerEmail, limit)| >= 1
    ensures GetTicketsByEmail(CreateTicket(table, data, now).table, data.customerEmail, limit)[0]
      == CreateTicket(table, data, now).ticket
  {
    var out := CreateTicket(table, data, now);
    var t := out.ticket;
    assert t in out.table.rows;
    NewestFirstHead(out.table.rows, (x: Ticket) => x.customerEmail == data.customerEmail, TicketCreatedAt, limit, t);
    var head := GetTicketsByEmail(out.table, data.customerEmail, limit)[0];
    assert head.createdAt >= t.createdAt;
    // Every earlier row is older than `t`, so the head is the new row.
    assert head !in table.rows;
    assert head in table.rows + [t];
  }

  /** The columns `updateTicketStatus` sets; `None` leaves a column as it was. */
  datatype TicketPatch = TicketPatch(status: string, updatedAt: int, resolvedAt: Option<int>, resolution: Option<string>)

  predicate IsFinalStatus(status: string)
  {
    status == ResolvedStatus || status == ClosedStatus
  }

  /** JavaScript truthiness of an optional string: present and non-empty. */
  predicate Truthy(s: Option<string>)
  {
    s.Some? && s.value != ""
  }

  /**
   The `updateData` object `updateTicketStatus` builds. Its two `new Date()`
   reads are `updatedAt` and `resolvedAt`; the second happens only for a
   final status.
   */
  function StatusPatch(status: string, resolution: Option<string>, updatedAt: int, resolvedAt: int): (p: TicketPatch)
    ensures p.status == status && p.updatedAt == updatedAt
    ensures p.resolvedAt.Some? <==> IsFinalStatus(status)
    ensures p.resolvedAt.Some? ==> p.resolvedAt.value == resolvedAt
    ensures p.resolution.Some? <==> IsFinalStatus(status) && Truthy(resolution)
    ensures p.resolution.Some? ==> p.resolution == resolution
  {
    if IsFinalStatus(status) then
      TicketPatch(status, updatedAt, Some(resolvedAt), if Truthy(resolution) then resolution else None)
    else
      TicketPatch(status, updatedAt, None, None)
  }

  /** `update … set <patch>` on one row. */
  function ApplyPatch(t: Ticket, p: TicketPatch): (u: Ticket)
    ensures u.status == p.status && u.updatedAt == p.updatedAt
    ensures u.resolvedAt == (if p.resolvedAt.Some? then p.resolvedAt else t.resolvedAt)
    ensures u.resolution == (if p.resolution.Some? then p.resolution else t.resolution)
    ensures u.(status := t.status, updatedAt := t.updatedAt, resolvedAt := t.resolvedAt, resolution := t.resolution) == t
  {
    t.(status := p.status, updatedAt := p.updatedAt,
       resolvedAt := if p.resolvedAt.Some? then p.resolvedAt else t.resolvedAt,
       resolution := if p.resolution.Some? then p.resolution else t.resolution)
  }

  /** The first ticket with the given id, if any. */
  function FindTicket(rows: seq<Ticket>, id: int): (r: Option<Ticket>)
    ensures r.Some? ==> r.value in rows && r.value.id == id
    ensures r.None? <==> forall i :: 0 <= i < |rows| ==> rows[i].id != id
  {
    if |rows| == 0 then None
    else if rows[0].id == id then Some(rows[0])
    else FindTicket(rows[1..], id)
  }

  datatype Updated = Updated(table: TicketTable, ticket: Option<Ticket>)

  /**
   `updateTicketStatus(ticketId, status, resolution)`: patches the row with
   that id and returns it (`None` for `undefined` when no row has the id).
   */
  function UpdateTicketStatus(table: TicketTable, ticketId: int, status: string, resolution: Option<string>,
                              updatedAt: int, resolvedAt: int): (out: Updated)
    ensures out.table.nextId == table.nextId && |out.table.rows| == |table.rows|
    ensures forall i :: 0 <= i < |table.rows| && table.rows[i].id != ticketId ==>
      out.table.rows[i] == table.rows[i]
    ensures forall i :: 0 <= i < |table.rows| && table.rows[i].id == ticketId ==>
      out.table.rows[i] == ApplyPatch(table.rows[i], StatusPatch(status, resolution, updatedAt, resolvedAt))
    ensures out.ticket.None? <==> forall i :: 0 <= i < |table.rows| ==> table.rows[i].id != ticketId
    ensures out.ticket.Some? ==> out.ticket.value in out.table.rows && out.ticket.value.id == ticketId
  {
    var p := StatusPatch(status, resolution, updatedAt, resolvedAt);
    var rows := seq(|table.rows|, i requires 0 <= i < |table.rows| =>
      if table.rows[i].id == ticketId then ApplyPatch(table.rows[i], p) else table.rows[i]);
    assert forall i :: 0 <= i < |rows| ==> rows[i].id == table.rows[i].id;
    Updated(TicketTable(rows, table.nextId), FindTicket(rows, ticketId))
  }

  /**
   The patch never clears anything: moving a resolved ticket back to a
   non-final status keeps its resolution time and resolution text.
   */
  lemma ReopeningKeepsResolution(t: Ticket, status: string, resolution: Option<string>,
                                  updatedAt: int, resolvedAt: int)
    requires !IsFinalStatus(status)
    ensures ApplyPatch(t, StatusPatch(status, resolution, updatedAt, resolvedAt)).resolvedAt == t.resolvedAt
    ensures ApplyPatch(t, StatusPatch(status, resolution, updatedAt, resolvedAt)).resolution == t.resolution
    ensures ApplyPatch(t, StatusPatch(status, resolution, updatedAt, resolvedAt)).status == status
  {
  }

  /** Updating keeps the ticket table well formed: ids are never touched. */
  lemma UpdateKeepsWellFormed(table: TicketTable, ticketId: int, status: string, resolution: Option<string>,
                              updatedAt: int, resolvedAt: int)
    requires TicketsWellFormed(table)
    ensures TicketsWellFormed(UpdateTicketStatus(table, ticketId, status, resolution, updatedAt, resolvedAt).table)
  {
    var rows := UpdateTicketStatus(table, ticketId, status, resolution, updatedAt, resolvedAt).table.rows;
    assert forall i :: 0 <= i < |rows| ==> rows[i].id == table.rows[i].id;
  }

  // ---------------------------------------------------------------------------
  // Orders
  // ---------------------------------------------------------------------------

  /**
   `getOrderStatus(orderId, email)`: the first order whose id AND customer
   e-mail both match (`limit 1`); `None` for `undefined`.
   */
  function GetOrderStatus(orders: seq<Order>, orderId: string, email: string): (r: Option<Order>)
    ensures r.Some? ==> r.value in orders && r.value.id == orderId && r.value.customerEmail == email
    ensures r.None? <==> forall i :: 0 <= i < |orders| ==> !(orders[i].id == orderId && orders[i].customerEmail == email)
  {
    if |orders| == 0 then None
    else if orders[0].id == orderId && orders[0].customerEmail == email then Some(orders[0])
    else GetOrderStatus(orders[1..], orderId, email)
  }

  /** `id` is the primary key of `orders`: equal ids mean the same row. */
  ghost predicate OrderIdsUnique(orders: seq<Order>)
  {
    forall i, j :: 0 <= i < |orders| && 0 <= j < |orders| && orders[i].id == orders[j].id ==> i == j
  }

  /**
   Knowing an order id is not enough: when the order with that id belongs to
   another e-mail address, the lookup returns nothing.
   */
  lemma OrderHiddenFromOtherEmails(orders: seq<Order>, k: nat, email: string)
    requires OrderIdsUnique(orders)
    requires k < |orders| && orders[k].customerEmail != email
    ensures GetOrderStatus(orders, orders[k].id, email).None?
  {
  }

  /** With the right id and e-mail the lookup returns exactly that order. */
  lemma OrderFoundByOwner(orders: seq<Order>, k: nat)
    requires OrderIdsUnique(orders)
    requires k < |orders|
    ensures GetOrderStatus(orders, orders[k].id, orders[k].customerEmail) == Some(orders[k])
  {
    var r := GetOrderStatus(orders, orders[k].id, orders[k].customerEmail);
    assert r.Some?;
    var i :| 0 <= i < |orders| && orders[i] == r.value;
  }

  // ---------------------------------------------------------------------------
  // Conversations
  // ---------------------------------------------------------------------------

  /** An insert either adds the row or fails on the primary key. */
  datatype Inserted = Inserted(rows: seq<Conversation>, conversation: Conversation) | DuplicateId

  predicate HasConversation(conversations: seq<Conversation>, id: string)
  {
    exists i :: 0 <= i < |conversations| && conversations[i].id == id
  }

  /**
   `createConversation(conversationId, customerEmail)`. Its two `new Date()`
   reads are `createdAt` and `updatedAt`.
   */
  function CreateConversation(conversations: seq<Conversation>, conversationId: string, customerEmail: string,
                              createdAt: int, updatedAt: int): (out: Inserted)
    ensures out.DuplicateId? <==> HasConversation(conversations, conversationId)
    ensures out.Inserted? ==>
      out.conversation == Conversation(conversationId, customerEmail, ActiveStatus, None, createdAt, updatedAt)
      && out.rows == conversations + [out.conversation]
  {
    if HasConversation(conversations, conversationId) then DuplicateId
    else
      var c := Conversation(conversationId, customerEmail, ActiveStatus, None, createdAt, updatedAt);
      Inserted(conversations + [c], c)
  }

  datatype SentimentUpdated = SentimentUpdated(rows: seq<Conversation>, conversation: Option<Conversation>)

  /** The first conversation with the given id, if any. */
  function FindConversation(rows: seq<Conversation>, id: string): (r: Option<Conversation>)
    ensures r.Some? ==> r.value in rows && r.value.id == id
    ensures r.None? <==> !HasConversation(rows, id)
  {
    if |rows| == 0 then None
    else if rows[0].id == id then Some(rows[0])
    else
      FindConversation(rows[1..], id)
  }

  /** `updateConversationSentiment(conversationId, sentiment)`. */
  function UpdateConversationSentiment(conversations: seq<Conversation>, conversationId: string, sentiment: string,
                                       now: int): (out: SentimentUpdated)
    ensures |out.rows| == |conversations|
    ensures forall i :: 0 <= i < |conversations| ==>
      out.rows[i] == if conversations[i].id == conversationId
                     then conversations[i].(sentiment := Some(sentiment), updatedAt := now)
                     else conversations[i]
    ensures out.conversation.None? <==> !HasConversation(conversations, conversationId)
    ensures out.conversation.Some? ==>
      (out.conversation.value in out.rows && out.conversation.value.id == conversationId
       && out.conversation.value.sentiment == Some(sentiment))
  {
    var rows := seq(|conversations|, i requires 0 <= i < |conversations| =>
      if conversations[i].id == conversationId
      then conversations[i].(sentiment := Some(sentiment), updatedAt := now)
      else conversations[i]);
    assert HasConversation(rows, conversationId) <==> HasConversation(conversations, conversationId) by {
      assert forall i :: 0 <= i < |rows| ==> rows[i].id == conversations[i].id;
    }
    SentimentUpdated(rows, FindConversation(rows, conversationId))
  }

  /** Sentiment updates overwrite: two updates in a row leave the second one's value and time. */
  lemma LatestSentimentWins(conversations: seq<Conversation>, id: string, s1: string, t1: int, s2: string, t2: int)
    ensures UpdateConversationSentiment(UpdateConversationSentiment(conversations, id, s1, t1).rows, id, s2, t2).rows
      == UpdateConversationSentiment(conversations, id, s2, t2).rows
  {
  }

  /** A new conversation is `active`, carries no sentiment and can be found by its id. */
  lemma CreatedConversationIsFound(conversations: seq<Conversation>, id: string, email: string,
                                    createdAt: int, updatedAt: int)
    requires !HasConversation(conversations, id)
    ensures CreateConversation(conversations, id, email, createdAt, updatedAt).Inserted?
    ensures FindConversation(CreateConversation(conversations, id, email, createdAt, updatedAt).rows, id)
      == Some(Conversation(id, email, ActiveStatus, None, createdAt, updatedAt))
  {
    var rows := CreateConversation(conversations, id, email, createdAt, updatedAt).rows;
    assert rows[|conversations|].id == id;
    var r := FindConversation(rows, id);
    var i :| 0 <= i < |rows| && rows[i] == r.value;
    assert i == |conversations|;
  }

  // ---------------------------------------------------------------------------
  // Dashboard
  // ---------------------------------------------------------------------------

  datatype TimeRange = Day | Week | Month

  const MsPerDay: int := 24 * 60 * 60 * 1000

  /** The `timeRange` the dashboard uses when none is given. */
  const DefaultRange: TimeRange := Week

  function DaysAgo(range: TimeRange): (days: int)
    ensures days in {1, 7, 30}
  {
    match range
    case Day => 1
    case Week => 7
    case Month => 30
  }

  /** The start of the reporting window. */
  function Since(range: TimeRange, now: int): (since: int)
    ensures now - since == DaysAgo(range) * 86400000
  {
    now - DaysAgo(range) * MsPerDay
  }

  datatype DashboardStats = DashboardStats(
    totalConversations: nat,
    totalTickets: nat,
    resolvedTickets: nat,
    resolutionRate: real)

  /** `count(*)` of the tickets created at or after `since`. */
  function TicketsSince(tickets: seq<Ticket>, since: int): (n: nat)
    ensures n <= |tickets|
    ensures n == 0 <==> forall i :: 0 <= i < |tickets| ==> tickets[i].createdAt < since
    ensures (forall i :: 0 <= i < |tickets| ==> tickets[i].createdAt >= since) ==> n == |tickets|
  {
    var inWindow := (t: Ticket) => t.createdAt >= since;
    FilterNoneOrAll(tickets, inWindow);
    |Filter(tickets, inWindow)|
  }

  /**
   `count(*)` of the tickets created at or after `since` whose status is
   "resolved": a sub-count of the tickets in the window.
   */
  function ResolvedSince(tickets: seq<Ticket>, since: int): (n: nat)
    ensures n <= TicketsSince(tickets, since)
    ensures n == 0 <==> forall i :: 0 <= i < |tickets| && tickets[i].createdAt >= since ==>
      tickets[i].status != ResolvedStatus
  {
    var resolved := (t: Ticket) => t.createdAt >= since && t.status == ResolvedStatus;
    FilterNarrower(tickets, resolved, (t: Ticket) => t.createdAt >= since);
    FilterNoneOrAll(tickets, resolved);
    |Filter(tickets, resolved)|
  }

  /** `count(*)` of the conversations started at or after `since`. */
  function ConversationsSince(conversations: seq<Conversation>, since: int): (n: nat)
    ensures n <= |conversations|
    ensures n == 0 <==> forall i :: 0 <= i < |conversations| ==> conversations[i].createdAt < since
    ensures (forall i :: 0 <= i < |conversations| ==> conversations[i].createdAt >= since) ==> n == |conversations|
  {
    var inWindow := (c: Conversation) => c.createdAt >= since;
    FilterNoneOrAll(conversations, inWindow);
    |Filter(conversations, inWindow)|
  }

  /** The percentage of resolved tickets, 0 when there are none. */
  function ResolutionRate(resolved: nat, total: nat): (rate: real)
    requires resolved <= total
    ensures total == 0 ==> rate == 0.0
    ensures total > 0 ==> rate * total as real == resolved as real * 100.0
    ensures 0.0 <= rate <= 100.0
  {
    if total > 0 then (resolved as real / total as real) * 100.0 else 0.0
  }

  /** `getDashboardStats(timeRange)` without the average rating. */
  function GetDashboardStats(conversations: seq<Conversation>, tickets: seq<Ticket>, range: TimeRange,
                             now: int): (stats: DashboardStats)
    ensures stats.totalConversations == ConversationsSince(conversations, Since(range, now))
    ensures stats.totalTickets == TicketsSince(tickets, Since(range, now))
    ensures stats.resolvedTickets == ResolvedSince(tickets, Since(range, now))
    ensures stats.totalConversations <= |conversations| && stats.totalTickets <= |tickets|
    ensures stats.resolvedTickets <= stats.totalTickets
    ensures stats.resolutionRate == ResolutionRate(stats.resolvedTickets, stats.totalTickets)
    ensures stats.totalTickets == 0 ==> stats.resolutionRate == 0.0
    ensures 0.0 <= stats.resolutionRate <= 100.0
  {
    var since := Since(range, now);
    var total := TicketsSince(tickets, since);
    var resolved := ResolvedSince(tickets, since);
    DashboardStats(ConversationsSince(conversations, since), total, resolved, ResolutionRate(resolved, total))
  }

  /** Without a range the dashboard counts the seven days before `now`. */
  lemma DefaultDashboardCoversLastWeek(conversations: seq<Conversation>, tickets: seq<Ticket>, now: int)
    ensures GetDashboardStats(conversations, tickets, DefaultRange, now).totalTickets
      == TicketsSince(tickets, now - 7 * 86400000)
    ensures GetDashboardStats(conversations, tickets, DefaultRange, now).totalConversations
      == ConversationsSince(conversations, now - 7 * 86400000)
  {
  }

  /** Widening the window from a day to a week never lowers the counts. */
  lemma WeekCountsAtLeastDay(conversations: seq<Conversation>, tickets: seq<Ticket>, now: int)
    ensures GetDashboardStats(conversations, tickets, Day, now).totalTickets
      <= GetDashboardStats(conversations, tickets, Week, now).totalTickets
    ensures GetDashboardStats(conversations, tickets, Day, now).totalConversations
      <= GetDashboardStats(conversations, tickets, Week, now).totalConversations
  {
    var day := Since(Day, now);
    var week := Since(Week, now);
    FilterNarrower(tickets, (t: Ticket) => t.createdAt >= day, (t: Ticket) => t.createdAt >= week);
    FilterNarrower(conversations, (c: Conversation) => c.createdAt >= day, (c: Conversation) => c.createdAt >= week);
  }
}
