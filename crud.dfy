/**
  The database layer (bot/crud.py): a store object holding the four tables
  and the queries and updates the handlers issue against them. Every update
  here is unconditional, as in the source; the guards live in the handlers.

  Tickets and operators are never deleted, so each of those tables is a
  sequence in id order where row `i` has id `i + 1` (autoincrement ids).
  FAQ entries can be deleted: they are kept in increasing id order with a
  counter for the next id. Sessions are keyed by their primary key.
*/
module Crud {
  import opened Wrappers
  import opened Text
  import opened Models

  // ---------------------------------------------------------------------
  // `select ... where p`, over a table
  // ---------------------------------------------------------------------

  /** The rows satisfying `p`, in table order (`result.scalars().all()`). */
  function Filter<T(!new)>(rows: seq<T>, p: T -> bool): (r: seq<T>)
    ensures |r| <= |rows|
    ensures forall x :: x in r <==> x in rows && p(x)
  {
    if rows == [] then []
    else (if p(rows[0]) then [rows[0]] else []) + Filter(rows[1..], p)
  }

  /** Filtering a table split in two filters each part (so table order is kept). */
  lemma {:induction false} FilterAppend<T(!new)>(a: seq<T>, b: seq<T>, p: T -> bool)
    ensures Filter(a + b, p) == Filter(a, p) + Filter(b, p)
    decreases |a|
  {
    if a == [] {
      assert a + b == b;
    } else {
      assert (a + b)[0] == a[0];
      assert (a + b)[1..] == a[1..] + b;
      FilterAppend(a[1..], b, p);
    }
  }

  /** Position of the first row satisfying `p` (`result.scalars().first()`). */
  function FindFirst<T>(rows: seq<T>, p: T -> bool): (r: Option<nat>)
    ensures r.Some? ==> r.value < |rows| && p(rows[r.value])
    ensures r.Some? ==> forall j :: 0 <= j < r.value ==> !p(rows[j])
    ensures r.None? ==> forall j :: 0 <= j < |rows| ==> !p(rows[j])
  {
    if rows == [] then None
    else if p(rows[0]) then Some(0)
    else match FindFirst(rows[1..], p)
      case None => None
      case Some(i) => Some(i + 1)
  }

  // ---------------------------------------------------------------------
  // Table shapes and key constraints
  // ---------------------------------------------------------------------

  ghost predicate TicketsNumbered(ts: seq<Ticket>) {
    forall i :: 0 <= i < |ts| ==> ts[i].id == i + 1
  }

  ghost predicate OperatorsNumbered(ops: seq<Operator>) {
    forall i :: 0 <= i < |ops| ==> ops[i].id == i + 1
  }

  /** The unique constraint on `operators.telegram_id`, over every row. */
  ghost predicate UniqueTelegramIds(ops: seq<Operator>) {
    forall i, j :: 0 <= i < j < |ops| ==> ops[i].telegramId != ops[j].telegramId
  }

  /** Stored Telegram ids are digit strings, so `int(op.telegram_id)` succeeds. */
  predicate NumericTelegramIds(ops: seq<Operator>) {
    forall i :: 0 <= i < |ops| ==> IsDigits(ops[i].telegramId)
  }

  ghost predicate FaqIdsIncreasing(es: seq<FaqEntry>, next: nat) {
    && (forall i, j :: 0 <= i < j < |es| ==> es[i].id < es[j].id)
    && (forall i :: 0 <= i < |es| ==> 1 <= es[i].id < next)
    && 1 <= next
  }

  /** `user_sessions.user_id` is the primary key. */
  ghost predicate SessionsKeyed(ss: map<string, UserSession>) {
    forall u :: u in ss ==> ss[u].userId == u
  }

  // ---------------------------------------------------------------------
  // The row updates, as functions of the table before
  // ---------------------------------------------------------------------

  /** `update tickets set operator_id = op, status = 'in_progress' where id = id`. */
  function Assigned(ts: seq<Ticket>, id: int, op: string): (r: seq<Ticket>)
    requires TicketsNumbered(ts)
    ensures |r| == |ts| && TicketsNumbered(r)
    ensures forall j :: 0 <= j < |ts| ==>
      r[j] == if ts[j].id == id then ts[j].(operatorId := Some(op), status := InProgress) else ts[j]
  {
    if 1 <= id <= |ts| then ts[id - 1 := ts[id - 1].(operatorId := Some(op), status := InProgress)]
    else ts
  }

  /** `update tickets set status = 'closed' where id = id`. */
  function ClosedAt(ts: seq<Ticket>, id: int): (r: seq<Ticket>)
    requires TicketsNumbered(ts)
    ensures |r| == |ts| && TicketsNumbered(r)
    ensures forall j :: 0 <= j < |ts| ==>
      r[j] == if ts[j].id == id then ts[j].(status := Closed) else ts[j]
  {
    if 1 <= id <= |ts| then ts[id - 1 := ts[id - 1].(status := Closed)] else ts
  }

  /**
    `add_operator`: the row with that Telegram id, in whatever state, is
    reactivated and renamed (its company is kept); without one, a new
    active row is appended.
  */
  function Registered(ops: seq<Operator>, company: int, tg: string, name: string): (r: seq<Operator>)
    requires OperatorsNumbered(ops) && UniqueTelegramIds(ops)
    ensures OperatorsNumbered(r) && UniqueTelegramIds(r)
    ensures (exists i :: 0 <= i < |ops| && ops[i].telegramId == tg) ==>
      && |r| == |ops|
      && forall j :: 0 <= j < |ops| ==>
           r[j] == if ops[j].telegramId == tg then ops[j].(isActive := true, fullName := name) else ops[j]
    ensures (forall i :: 0 <= i < |ops| ==> ops[i].telegramId != tg) ==>
      r == ops + [Operator(|ops| + 1, company, tg, name, true)]
  {
    match FindFirst(ops, (o: Operator) => o.telegramId == tg)
    case Some(i) => ops[i := ops[i].(isActive := true, fullName := name)]
    case None => ops + [Operator(|ops| + 1, company, tg, name, true)]
  }

  /** `update operators set is_active = false where id = id`: never deletes. */
  function Deactivated(ops: seq<Operator>, id: int): (r: seq<Operator>)
    requires OperatorsNumbered(ops)
    ensures |r| == |ops| && OperatorsNumbered(r)
    ensures forall j :: 0 <= j < |ops| ==>
      r[j] == if ops[j].id == id then ops[j].(isActive := false) else ops[j]
  {
    if 1 <= id <= |ops| then ops[id - 1 := ops[id - 1].(isActive := false)] else ops
  }

  /** `update faq_entries set question = q, answer = a where id = id`. */
  function FaqsUpdated(es: seq<FaqEntry>, id: int, q: string, a: string): (r: seq<FaqEntry>)
    ensures |r| == |es|
    ensures forall j :: 0 <= j < |es| ==> r[j].id == es[j].id && r[j].companyId == es[j].companyId
    ensures forall j :: 0 <= j < |es| ==> (es[j].id == id ==> r[j].question == q && r[j].answer == a)
    ensures forall j :: 0 <= j < |es| ==> (es[j].id != id ==> r[j] == es[j])
  {
    seq(|es|, j requires 0 <= j < |es| =>
      if es[j].id == id then es[j].(question := q, answer := a) else es[j])
  }

  /**
    `create_or_update_user_session`: it looks for the row of that user AND
    company; it overwrites only `state` on a hit and inserts on a miss. A
    miss while the user has a row for another company breaks the primary
    key: the insert fails (None).
  */
  function Upserted(ss: map<string, UserSession>, user: string, company: int, state: string)
    : (r: Option<map<string, UserSession>>)
    requires SessionsKeyed(ss)
    ensures r.None? <==> user in ss && ss[user].companyId != company
    ensures r.Some? ==> SessionsKeyed(r.value) && r.value.Keys == ss.Keys + {user}
    ensures r.Some? ==> r.value[user].state == Some(state) && r.value[user].companyId == company
    ensures r.Some? && user in ss ==> r.value[user].data == ss[user].data
    ensures r.Some? && user !in ss ==> r.value[user].data == None
    ensures r.Some? ==> forall u :: u in ss && u != user ==> r.value[u] == ss[u]
  {
    if user in ss then
      if ss[user].companyId == company then Some(ss[user := ss[user].(state := Some(state))])
      else None
    else Some(ss[user := UserSession(user, company, Some(state), None)])
  }

  // ---------------------------------------------------------------------
  // Queries as predicates on a row
  // ---------------------------------------------------------------------

  predicate IsActiveTicketOf(t: Ticket, user: string) {
    t.userId == user && t.status == InProgress
  }

  predicate IsOpenIn(t: Ticket, company: int) {
    t.companyId == company && t.status == Open
  }

  predicate IsHeldBy(t: Ticket, op: string, company: int) {
    t.operatorId == Some(op) && t.companyId == company && t.status == InProgress
  }

  predicate IsActiveOperatorOf(o: Operator, company: int) {
    o.companyId == company && o.isActive
  }

  /** `question ilike '%k%' or answer ilike '%k%'`. */
  predicate FaqMatches(fold: char -> char, e: FaqEntry, company: int, keyword: string) {
    e.companyId == company
    && (ContainsFolded(fold, e.question, keyword) || ContainsFolded(fold, e.answer, keyword))
  }

  /** `[int(telegram_id) for ...]`. */
  function TelegramNumbers(ops: seq<Operator>): (r: seq<nat>)
    requires NumericTelegramIds(ops)
    ensures |r| == |ops|
    ensures forall i :: 0 <= i < |ops| ==> r[i] == DigitsValue(ops[i].telegramId)
  {
    seq(|ops|, i requires 0 <= i < |ops| => DigitsValue(ops[i].telegramId))
  }

  // ---------------------------------------------------------------------
  // The store
  // ---------------------------------------------------------------------

  class Store {
    var tickets: seq<Ticket>
    var operators: seq<Operator>
    var faqs: seq<FaqEntry>
    var nextFaqId: nat
    var sessions: map<string, UserSession>

    ghost predicate Valid()
      reads this
    {
      && TicketsNumbered(tickets)
      && OperatorsNumbered(operators)
      && UniqueTelegramIds(operators)
      && NumericTelegramIds(operators)
      && FaqIdsIncreasing(faqs, nextFaqId)
      && SessionsKeyed(sessions)
    }

    /** An empty database. */
    constructor ()
      ensures Valid()
      ensures tickets == [] && operators == [] && faqs == [] && sessions == map[]
    {
      tickets, operators, faqs, nextFaqId, sessions := [], [], [], 1, map[];
    }

    // --- tickets ---------------------------------------------------------

    /** `get_ticket_by_id`. */
    function GetTicketById(id: int): (r: Option<Ticket>)
      reads this
      requires Valid()
      ensures r.Some? ==> r.value in tickets && r.value.id == id
      ensures r.None? ==> forall t :: t in tickets ==> t.id != id
    {
      if 1 <= id <= |tickets| then Some(tickets[id - 1]) else None
    }

    /**
      `get_active_ticket_by_user`: the first in_progress ticket of that
      customer, of any company; None only when there is none.
    */
    function GetActiveTicketByUser(user: string): (r: Option<Ticket>)
      reads this
      ensures r.Some? ==> r.value in tickets && IsActiveTicketOf(r.value, user)
      ensures r.None? ==> forall t :: t in tickets ==> !IsActiveTicketOf(t, user)
    {
      match FindFirst(tickets, (t: Ticket) => IsActiveTicketOf(t, user))
      case None => None
      case Some(i) => Some(tickets[i])
    }

    /** `get_open_tickets`: exactly the company's open tickets. */
    function GetOpenTickets(company: int): (r: seq<Ticket>)
      reads this
      ensures forall t :: t in r <==> t in tickets && IsOpenIn(t, company)
    {
      Filter(tickets, (t: Ticket) => IsOpenIn(t, company))
    }

    /** `get_tickets_by_operator`: the company's in_progress tickets held by `op`. */
    function GetTicketsByOperator(op: string, company: int): (r: seq<Ticket>)
      reads this
      ensures forall t :: t in r <==> t in tickets && IsHeldBy(t, op, company)
    {
      Filter(tickets, (t: Ticket) => IsHeldBy(t, op, company))
    }

    /** `create_ticket`: a new open ticket with no operator. */
    method CreateTicket(company: int, user: string, text: string) returns (t: Ticket)
      requires Valid()
      modifies this`tickets
      ensures Valid()
      ensures t == Ticket(|old(tickets)| + 1, company, user, None, text, Open)
      ensures tickets == old(tickets) + [t]
    {
      t := Ticket(|tickets| + 1, company, user, None, text, Open);
      tickets := tickets + [t];
    }

    /** `assign_ticket`: unconditional. */
    method AssignTicket(id: int, op: string)
      requires Valid()
      modifies this`tickets
      ensures Valid()
      ensures tickets == Assigned(old(tickets), id, op)
    {
      tickets := Assigned(tickets, id, op);
    }

    /** `close_ticket`: unconditional, `operator_id` untouched. */
    method CloseTicket(id: int)
      requires Valid()
      modifies this`tickets
      ensures Valid()
      ensures tickets == ClosedAt(old(tickets), id)
    {
      tickets := ClosedAt(tickets, id);
    }

    // --- FAQ -------------------------------------------------------------

    /** `get_faq_entries`. */
    function GetFaqEntries(company: int): (r: seq<FaqEntry>)
      reads this
      ensures forall e :: e in r <==> e in faqs && e.companyId == company
    {
      Filter(faqs, (e: FaqEntry) => e.companyId == company)
    }

    /** `get_faq_by_id`: by id alone, whatever the company. */
    function GetFaqById(id: int): (r: Option<FaqEntry>)
      reads this
      ensures r.Some? ==> r.value in faqs && r.value.id == id
      ensures r.None? ==> forall e :: e in faqs ==> e.id != id
    {
      match FindFirst(faqs, (e: FaqEntry) => e.id == id)
      case None => None
      case Some(i) => Some(faqs[i])
    }

    /**
      `get_faq_by_keyword`: exactly the company's entries whose question or
      answer contains the keyword under the database's case folding.
    */
    function GetFaqByKeyword(fold: char -> char, company: int, keyword: string): (r: seq<FaqEntry>)
      reads this
      ensures forall e :: e in r <==> e in faqs && FaqMatches(fold, e, company, keyword)
    {
      Filter(faqs, (e: FaqEntry) => FaqMatches(fold, e, company, keyword))
    }

    /** `create_faq_entry`: appended with a fresh, larger id. */
    method CreateFaqEntry(company: int, question: string, answer: string) returns (e: FaqEntry)
      requires Valid()
      modifies this`faqs, this`nextFaqId
      ensures Valid()
      ensures e == FaqEntry(old(nextFaqId), company, question, answer)
      ensures faqs == old(faqs) + [e] && nextFaqId == old(nextFaqId) + 1
    {
      e := FaqEntry(nextFaqId, company, question, answer);
      faqs := faqs + [e];
      nextFaqId := nextFaqId + 1;
    }

    /** `delete_faq_entry`: removes the row with that id, if any. */
    method DeleteFaqEntry(id: int)
      requires Valid()
      modifies this`faqs
      ensures Valid()
      ensures faqs == Filter(old(faqs), (e: FaqEntry) => e.id != id)
    {
      FilterKeepsIncreasing(faqs, nextFaqId, id);
      faqs := Filter(faqs, (e: FaqEntry) => e.id != id);
    }

    /** `update_faq_entry`: rewrites question and answer of the row with that id. */
    method UpdateFaqEntry(id: int, question: string, answer: string)
      requires Valid()
      modifies this`faqs
      ensures Valid()
      ensures faqs == FaqsUpdated(old(faqs), id, question, answer)
    {
      faqs := FaqsUpdated(faqs, id, question, answer);
    }

    // --- operators -------------------------------------------------------

    /** `get_operators`: only the active rows of the company. */
    function GetOperators(company: int): (r: seq<Operator>)
      reads this
      ensures forall o :: o in r <==> o in operators && IsActiveOperatorOf(o, company)
    {
      Filter(operators, (o: Operator) => IsActiveOperatorOf(o, company))
    }

    /**
      `get_active_operator_ids`: `int(telegram_id)` of each active operator
      row of the company, in table order; two rows stored as "7" and "007"
      both contribute 7.
    */
    function GetActiveOperatorIds(company: int): (r: seq<nat>)
      reads this
      requires Valid()
      ensures forall x :: x in r <==>
        exists o :: o in operators && IsActiveOperatorOf(o, company) && DigitsValue(o.telegramId) == x
      ensures NumericTelegramIds(GetOperators(company)) && r == TelegramNumbers(GetOperators(company))
    {
      var ops := GetOperators(company);
      assert NumericTelegramIds(ops) by {
        forall i | 0 <= i < |ops| ensures IsDigits(ops[i].telegramId) {
          assert ops[i] in operators;
        }
      }
      var r := TelegramNumbers(ops);
      assert forall x :: x in r ==> exists o :: o in ops && DigitsValue(o.telegramId) == x by {
        forall x | x in r ensures exists o :: o in ops && DigitsValue(o.telegramId) == x {
          var i :| 0 <= i < |r| && r[i] == x;
          assert ops[i] in ops;
        }
      }
      assert forall o :: o in ops ==> DigitsValue(o.telegramId) in r by {
        forall o | o in ops ensures DigitsValue(o.telegramId) in r {
          var i :| 0 <= i < |ops| && ops[i] == o;
          assert r[i] == DigitsValue(o.telegramId);
        }
      }
      r
    }

    /**
      `add_operator`. The stored id must be a digit string: the IsOperator
      filter and `get_active_operator_ids` apply `int()` to every row.
    */
    method AddOperator(company: int, tg: string, name: string) returns (op: Operator)
      requires Valid() && IsDigits(tg)
      modifies this`operators
      ensures Valid()
      ensures operators == Registered(old(operators), company, tg, name)
      ensures op in operators && op.telegramId == tg && op.isActive && op.fullName == name
    {
      var found := FindFirst(operators, (o: Operator) => o.telegramId == tg);
      operators := Registered(operators, company, tg, name);
      match found {
        case Some(i) => op := operators[i];
        case None => op := operators[|operators| - 1];
      }
    }

    /** `deactivate_operator`: clears `is_active` of the row with that id. */
    method DeactivateOperator(id: int)
      requires Valid()
      modifies this`operators
      ensures Valid()
      ensures operators == Deactivated(old(operators), id)
    {
      operators := Deactivated(operators, id);
    }

    // --- sessions --------------------------------------------------------

    /** `get_user_session`. */
    function GetUserSession(user: string): (r: Option<UserSession>)
      reads this
      requires Valid()
      ensures r.Some? <==> user in sessions
      ensures r.Some? ==> r.value == sessions[user] && r.value.userId == user
    {
      if user in sessions then Some(sessions[user]) else None
    }

    /**
      `create_or_update_user_session`; `ok` is false when the insert breaks
      the primary key (the source raises), and then nothing changes.
    */
    method UpsertUserSession(user: string, company: int, state: string) returns (ok: bool)
      requires Valid()
      modifies this`sessions
      ensures Valid()
      ensures ok == Upserted(old(sessions), user, company, state).Some?
      ensures ok ==> sessions == Upserted(old(sessions), user, company, state).value
      ensures !ok ==> sessions == old(sessions)
      ensures ok ==> GetUserSession(user).Some? && GetUserSession(user).value.state == Some(state)
    {
      match Upserted(sessions, user, company, state) {
        case None => ok := false;
        case Some(ss) => ok := true; sessions := ss;
      }
    }

    /** `delete_user_session`: a no-op for a customer without a session. */
    method DeleteUserSession(user: string)
      requires Valid()
      modifies this`sessions
      ensures Valid()
      ensures sessions == old(sessions) - {user}
      ensures GetUserSession(user) == None
      ensures user !in old(sessions) ==> sessions == old(sessions)
    {
      sessions := sessions - {user};
    }
  }

  lemma FilterKeepsIncreasing(es: seq<FaqEntry>, next: nat, id: int)
    requires FaqIdsIncreasing(es, next)
    ensures FaqIdsIncreasing(Filter(es, (e: FaqEntry) => e.id != id), next)
  {
    var p := (e: FaqEntry) => e.id != id;
    FilterSubsequence(es, p);
    var r := Filter(es, p);
    forall i | 0 <= i < |r| ensures 1 <= r[i].id < next {
      assert r[i] in es;
    }
  }

  /** Filtering keeps the relative order of ids (so increasing ids stay increasing). */
  lemma {:induction false} FilterSubsequence(es: seq<FaqEntry>, p: FaqEntry -> bool)
    requires forall i, j :: 0 <= i < j < |es| ==> es[i].id < es[j].id
    ensures forall i, j :: 0 <= i < j < |Filter(es, p)| ==> Filter(es, p)[i].id < Filter(es, p)[j].id
    decreases |es|
  {
    if es != [] {
      var rest := Filter(es[1..], p);
      FilterSubsequence(es[1..], p);
      forall x | x in rest ensures es[0].id < x.id {
        var k :| 0 <= k < |es[1..]| && es[1..][k] == x;
      }
    }
  }
}
