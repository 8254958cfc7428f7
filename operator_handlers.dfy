/**
  bot/handlers/operator_handlers.py: the operator side. Operators list the
  open tickets and their own, take a ticket (assign), close it, switch the
  ticket their free text goes to, and write to the customer.

  The per-operator FSM storage of the chat library is the class `Fsm`: the
  `current_ticket` value of each operator. The library's single FSM state
  (`OperatorStates.chatting`) is set and cleared together with it and no
  handler reads it, so it is folded into the binding.
*/
module OperatorHandlers {
  import opened Wrappers
  import opened Text
  import opened Models
  import opened Crud
  import opened Keyboards
  import opened Messages

  /** `state.get_data()`, `update_data(current_ticket=...)` and `clear()`, per operator. */
  class Fsm {
    /** Operator Telegram id -> `current_ticket`. */
    var current: map<nat, int>

    constructor ()
      ensures current == map[]
    {
      current := map[];
    }

    /** `data.get("current_ticket")`. */
    function Current(op: nat): (r: Option<int>)
      reads this
      ensures r.Some? <==> op in current
      ensures r.Some? ==> r.value == current[op]
    {
      if op in current then Some(current[op]) else None
    }

    /** `update_data(current_ticket=id)` with `set_state(chatting)`. */
    method Bind(op: nat, id: int)
      modifies this`current
      ensures current == old(current)[op := id]
    {
      current := current[op := id];
    }

    /** `state.clear()`. */
    method Clear(op: nat)
      modifies this`current
      ensures current == old(current) - {op}
    {
      current := current - {op};
    }
  }

  // ---------------------------------------------------------------------
  // The binding invariant and why each step keeps it
  // ---------------------------------------------------------------------

  /**
    Every operator's current ticket exists and is an in_progress ticket of
    the company that this operator holds.
  */
  ghost predicate BindingsSound(ts: seq<Ticket>, current: map<nat, int>) {
    forall op :: op in current ==>
      1 <= current[op] <= |ts| && IsHeldBy(ts[current[op] - 1], Key(op), Company)
  }

  /**
    Taking an open ticket: the table stays lifecycle-sound, and is a later
    state of the old one with no skipped step.
  */
  lemma AssignTable(ts: seq<Ticket>, id: int, op: string)
    requires TicketsNumbered(ts) && Lifecycle(ts)
    requires 1 <= id <= |ts| && ts[id - 1].status == Open
    ensures var after := Assigned(ts, id, op);
      Lifecycle(after) && Advanced(ts, after) && NoSkip(ts, after)
  {
    var after := Assigned(ts, id, op);
    assert after == ts[id - 1 := ts[id - 1].(operatorId := Some(op), status := InProgress)];
  }

  /**
    Binding the taker to the ticket it took keeps every binding sound: no
    other binding pointed at an open ticket.
  */
  lemma AssignBindings(ts: seq<Ticket>, current: map<nat, int>, id: int, actor: nat)
    requires TicketsNumbered(ts) && BindingsSound(ts, current)
    requires 1 <= id <= |ts| && ts[id - 1].status == Open && ts[id - 1].companyId == Company
    ensures BindingsSound(Assigned(ts, id, Key(actor)), current[actor := id])
  {
    var after := Assigned(ts, id, Key(actor));
    assert after == ts[id - 1 := ts[id - 1].(operatorId := Some(Key(actor)), status := InProgress)];
    var cur := current[actor := id];
    forall op | op in cur
      ensures 1 <= cur[op] <= |after| && IsHeldBy(after[cur[op] - 1], Key(op), Company)
    {
      if op != actor {
        assert ts[current[op] - 1].status == InProgress;
        assert after[cur[op] - 1] == ts[current[op] - 1];
      }
    }
  }

  /**
    Closing a ticket that has an operator: the table stays lifecycle-sound,
    and is a later state of the old one with no skipped step (a ticket with
    an operator is no longer open).
  */
  lemma CloseTable(ts: seq<Ticket>, id: int, op: string)
    requires TicketsNumbered(ts) && Lifecycle(ts)
    requires 1 <= id <= |ts| && ts[id - 1].operatorId == Some(op)
    ensures var after := ClosedAt(ts, id);
      Lifecycle(after) && Advanced(ts, after) && NoSkip(ts, after)
  {
    var after := ClosedAt(ts, id);
    assert after == ts[id - 1 := ts[id - 1].(status := Closed)];
    assert ts[id - 1].status != Open;
  }

  /**
    Clearing the closer's binding when it pointed at the closed ticket
    keeps every binding sound: no other operator can be bound to a ticket
    they do not hold.
  */
  lemma CloseBindings(ts: seq<Ticket>, current: map<nat, int>, id: int, actor: nat)
    requires TicketsNumbered(ts) && BindingsSound(ts, current)
    requires 1 <= id <= |ts| && ts[id - 1].operatorId == Some(Key(actor))
    ensures var cur := if actor in current && current[actor] == id then current - {actor} else current;
      BindingsSound(ClosedAt(ts, id), cur)
  {
    var after := ClosedAt(ts, id);
    assert after == ts[id - 1 := ts[id - 1].(status := Closed)];
    var cur := if actor in current && current[actor] == id then current - {actor} else current;
    forall op | op in cur
      ensures 1 <= cur[op] <= |after| && IsHeldBy(after[cur[op] - 1], Key(op), Company)
    {
      if cur[op] == id {
        assert ts[id - 1].operatorId == Some(Key(op));
        KeyInjective(op, actor);
        assert false;
      }
      assert after[cur[op] - 1] == ts[cur[op] - 1];
    }
  }

  /** Binding an operator to a ticket they hold keeps every binding sound. */
  lemma SelectKeeps(ts: seq<Ticket>, current: map<nat, int>, t: Ticket, actor: nat)
    requires TicketsNumbered(ts) && BindingsSound(ts, current)
    requires t in ts && IsHeldBy(t, Key(actor), Company)
    ensures BindingsSound(ts, current[actor := t.id])
  {
    var i :| 0 <= i < |ts| && ts[i] == t;
    assert t.id == i + 1;
  }

  /**
    A new open ticket without operator (the customer side creates only
    these) keeps the table sound and every binding as it was.
  */
  lemma CreateKeeps(ts: seq<Ticket>, current: map<nat, int>, t: Ticket)
    requires Lifecycle(ts) && BindingsSound(ts, current)
    requires t.status == Open && t.operatorId == None
    ensures Lifecycle(ts + [t]) && Advanced(ts, ts + [t]) && NoSkip(ts, ts + [t])
    ensures BindingsSound(ts + [t], current)
  {
    forall op | op in current
      ensures 1 <= current[op] <= |ts + [t]| && IsHeldBy((ts + [t])[current[op] - 1], Key(op), Company)
    {
      assert (ts + [t])[current[op] - 1] == ts[current[op] - 1];
    }
  }

  // ---------------------------------------------------------------------
  // Screens
  // ---------------------------------------------------------------------

  /** `[(t.id, t.question_text) for t in tickets]`. */
  function Previews(ts: seq<Ticket>): (r: seq<(nat, string)>)
    ensures |r| == |ts|
    ensures forall i :: 0 <= i < |ts| ==> r[i] == (ts[i].id, ts[i].questionText)
  {
    seq(|ts|, i requires 0 <= i < |ts| => (ts[i].id, ts[i].questionText))
  }

  /** The open-ticket screen for the open tickets `open`. */
  function OpenScreen(open: seq<Ticket>): Msg {
    if open == [] then NoNewTickets else OpenTicketsList(OpenList(Previews(open)))
  }

  /** The own-ticket screen for the tickets `mine`. */
  function MyScreen(mine: seq<Ticket>): Msg {
    if mine == [] then NoActiveTickets else MyTicketsList(MyList(Previews(mine)))
  }

  /**
    The open-ticket screen lists exactly the company's open tickets: a row
    reads back as a ticket's id exactly when that ticket is open and of the
    company; with none, it says there are no new tickets.
  */
  lemma OpenScreenShowsOpen(store: Store, t: Ticket)
    requires store.Valid() && t in store.tickets
    ensures var m := OpenScreen(store.GetOpenTickets(Company));
      && (m == NoNewTickets <==> forall u :: u in store.tickets ==> !IsOpenIn(u, Company))
      && (m.OpenTicketsList? ==>
            ((exists i :: 0 <= i < |m.kb| - 1 && Field(m.kb[i][0].data, 1) == Some(t.id as int))
             <==> IsOpenIn(t, Company)))
  {
    var open := store.GetOpenTickets(Company);
    if open != [] {
      assert open[0] in open;
    }
    ListedExactly(store.tickets, open, t, (u: Ticket) => IsOpenIn(u, Company), false);
  }

  /** The own-ticket screen lists exactly the in_progress tickets the operator holds. */
  lemma MyScreenShowsHeld(store: Store, actor: nat, t: Ticket)
    requires store.Valid() && t in store.tickets
    ensures var m := MyScreen(store.GetTicketsByOperator(Key(actor), Company));
      && (m == NoActiveTickets <==> forall u :: u in store.tickets ==> !IsHeldBy(u, Key(actor), Company))
      && (m.MyTicketsList? ==>
            ((exists i :: 0 <= i < |m.kb| - 1 && Field(m.kb[i][0].data, 1) == Some(t.id as int))
             <==> IsHeldBy(t, Key(actor), Company)))
  {
    var mine := store.GetTicketsByOperator(Key(actor), Company);
    if mine != [] {
      assert mine[0] in mine;
    }
    ListedExactly(store.tickets, mine, t, (u: Ticket) => IsHeldBy(u, Key(actor), Company), true);
  }

  /**
    The common step: a list keyboard built from the rows of `ts` that
    satisfy `p` has a row for `t` exactly when `t` satisfies `p`, because
    ticket ids identify tickets.
  */
  lemma ListedExactly(ts: seq<Ticket>, shown: seq<Ticket>, t: Ticket, p: Ticket -> bool, mine: bool)
    requires TicketsNumbered(ts) && t in ts
    requires forall u :: u in shown <==> u in ts && p(u)
    ensures shown != [] ==>
      var kb := if mine then MyList(Previews(shown)) else OpenList(Previews(shown));
      (exists i :: 0 <= i < |kb| - 1 && Field(kb[i][0].data, 1) == Some(t.id as int)) <==> p(t)
  {
    if shown != [] {
      var kb: Keyboard := if mine then MyList(Previews(shown)) else OpenList(Previews(shown));
      ShownIds(shown, mine);
      var keys := seq(|shown|, i requires 0 <= i < |shown| => Field(kb[i][0].data, 1));
      ListedIff(ts, shown, keys, t, p);
      assert forall i :: 0 <= i < |shown| ==> keys[i] == Field(kb[i][0].data, 1);
    }
  }

  /** Keys that name the listed tickets name `t` exactly when `t` is listed. */
  lemma ListedIff(ts: seq<Ticket>, shown: seq<Ticket>, keys: seq<Option<int>>, t: Ticket, p: Ticket -> bool)
    requires TicketsNumbered(ts) && t in ts
    requires forall u :: u in shown <==> u in ts && p(u)
    requires |keys| == |shown|
    requires forall i :: 0 <= i < |shown| ==> keys[i] == Some(shown[i].id as int)
    ensures (exists i :: 0 <= i < |keys| && keys[i] == Some(t.id as int)) <==> p(t)
  {
    if p(t) {
      var i :| 0 <= i < |shown| && shown[i] == t;
      assert keys[i] == Some(t.id as int);
    }
    if exists i :: 0 <= i < |keys| && keys[i] == Some(t.id as int) {
      var i :| 0 <= i < |keys| && keys[i] == Some(t.id as int);
      assert shown[i] in shown;
      SameIdSameTicket(ts, shown[i], t);
    }
  }

  /** Row `i` of a list screen carries the id of the `i`-th listed ticket. */
  lemma ShownIds(shown: seq<Ticket>, mine: bool)
    ensures var kb := if mine then MyList(Previews(shown)) else OpenList(Previews(shown));
      && |kb| == |shown| + 1
      && forall i :: 0 <= i < |shown| ==> Field(kb[i][0].data, 1) == Some(shown[i].id as int)
  {
    var pv := Previews(shown);
    if mine { MyListRoundTrip(pv); } else { OpenListRoundTrip(pv); }
  }

  /** Ticket ids identify tickets. */
  lemma SameIdSameTicket(ts: seq<Ticket>, u: Ticket, t: Ticket)
    requires TicketsNumbered(ts) && u in ts && t in ts && u.id == t.id
    ensures u == t
  {
    var a :| 0 <= a < |ts| && ts[a] == u;
    var b :| 0 <= b < |ts| && ts[b] == t;
  }

  /** "📋 Открытые тикеты" and `/tickets` (`show_open_tickets`). */
  method ShowOpenTickets(store: Store) returns (out: seq<Outgoing>)
    requires store.Valid()
    ensures out == [Reply(OpenScreen(store.GetOpenTickets(Company)))]
  {
    var open := store.GetOpenTickets(Company);
    var simplified := Previews(open);
    if simplified == [] {
      return [Reply(NoNewTickets)];
    }
    var kb := OperatorTicketsKeyboard(simplified);
    out := [Reply(OpenTicketsList(kb))];
  }

  /** "📂 Мои тикеты" and `/my_tickets` (`show_my_tickets`). */
  method ShowMyTickets(store: Store, actor: nat) returns (out: seq<Outgoing>)
    requires store.Valid()
    ensures out == [Reply(MyScreen(store.GetTicketsByOperator(Key(actor), Company)))]
  {
    var mine := store.GetTicketsByOperator(Key(actor), Company);
    var simplified := Previews(mine);
    if simplified == [] {
      return [Reply(NoActiveTickets)];
    }
    var kb := OperatorMyTicketsKeyboard(simplified);
    out := [Reply(MyTicketsList(kb))];
  }

  /** `tickets:refresh` and `back_to_open`: the open-ticket screen, in place. */
  method RefreshOpenTickets(store: Store) returns (out: seq<Outgoing>)
    requires store.Valid()
    ensures out == [Edit(OpenScreen(store.GetOpenTickets(Company)))]
  {
    var open := store.GetOpenTickets(Company);
    var simplified := Previews(open);
    if simplified == [] {
      return [Edit(NoNewTickets)];
    }
    var kb := OperatorTicketsKeyboard(simplified);
    out := [Edit(OpenTicketsList(kb))];
  }

  /** `back_to_my`: the own-ticket screen, in place. */
  method BackToMyTickets(store: Store, actor: nat) returns (out: seq<Outgoing>)
    requires store.Valid()
    ensures out == [Edit(MyScreen(store.GetTicketsByOperator(Key(actor), Company)))]
  {
    var mine := store.GetTicketsByOperator(Key(actor), Company);
    var simplified := Previews(mine);
    if simplified == [] {
      return [Edit(NoActiveTickets)];
    }
    var kb := OperatorMyTicketsKeyboard(simplified);
    out := [Edit(MyTicketsList(kb))];
  }

  /** `tickets:back`, and `select:back`: leave the list, show the operator menu. */
  const LeaveList: seq<Outgoing> := [Edit(BackToOperatorMenu), Reply(OperatorMenuShown(OperatorMenu))]

  /**
    `open_ticket:<id>` and `my_ticket:<id>`: the actions of that ticket,
    whose back button returns to the list it came from. Data without a
    numeric second field makes the handler raise.
  */
  function ActionsScreen(data: string, origin: string): (out: seq<Outgoing>)
    ensures Field(data, 1).None? <==> out == []
  {
    match Field(data, 1)
    case None => []
    case Some(id) => [Edit(ChooseAction(id, TicketActionsKeyboard(id, origin)))]
  }

  /**
    Pressing a row of the open list opens that ticket's actions, with a back
    button to the open list; a row of the own list, with one to that list.
  */
  lemma RowOpensActions(tickets: seq<(nat, string)>, i: nat)
    requires i < |tickets|
    ensures var id := tickets[i].0 as int;
      && ActionsScreen(OpenList(tickets)[i][0].data, "open")
           == [Edit(ChooseAction(id, TicketActionsKeyboard(id, "open")))]
      && ActionsScreen(MyList(tickets)[i][0].data, "my")
           == [Edit(ChooseAction(id, TicketActionsKeyboard(id, "my")))]
      && TicketActionsKeyboard(id, "open")[2][0].data == BackToOpen
      && TicketActionsKeyboard(id, "my")[2][0].data == BackToMy
  {
    OpenListRoundTrip(tickets);
    MyListRoundTrip(tickets);
  }

  /** "🔄 Переключить тикет" (`prompt_select_ticket`). */
  method PromptSelectTicket(store: Store, actor: nat) returns (out: seq<Outgoing>)
    requires store.Valid()
    ensures var mine := store.GetTicketsByOperator(Key(actor), Company);
      && (mine == [] ==> out == [Reply(NoTicketsToSwitch)])
      && (mine != [] ==> out == [Reply(SwitchList(SelectList(Previews(mine))))])
  {
    var mine := store.GetTicketsByOperator(Key(actor), Company);
    var simplified := Previews(mine);
    if simplified == [] {
      return [Reply(NoTicketsToSwitch)];
    }
    var kb := SelectTicketKeyboard(simplified);
    out := [Reply(SwitchList(kb))];
  }

  /** Whether `id` is among the ids of the tickets `ts` (`ticket_id in ids`). */
  predicate HasId(ts: seq<Ticket>, id: int) {
    exists i :: 0 <= i < |ts| && ts[i].id == id
  }

  /**
    `handle_select_ticket`: `select:back` leaves the list; a number binds
    the operator to it only when it is one of the operator's in_progress
    tickets of the company; nothing else changes the binding.
  */
  method HandleSelectTicket(store: Store, fsm: Fsm, actor: nat, data: string) returns (out: seq<Outgoing>)
    requires store.Valid()
    modifies fsm`current
    ensures old(BindingsSound(store.tickets, fsm.current)) ==> BindingsSound(store.tickets, fsm.current)
    ensures match DecodeChoice(data)
      case Malformed => fsm.current == old(fsm.current) && out == []
      case Back => fsm.current == old(fsm.current) && out == LeaveList
      case Pick(id) =>
        if HasId(store.GetTicketsByOperator(Key(actor), Company), id) then
          fsm.current == old(fsm.current)[actor := id] && out == [Edit(Switched(id))]
        else
          fsm.current == old(fsm.current) && out == [Edit(NoSuchActiveTicket)]
  {
    match DecodeChoice(data) {
      case Malformed =>
        out := [];
      case Back =>
        out := LeaveList;
      case Pick(id) =>
        var mine := store.GetTicketsByOperator(Key(actor), Company);
        if !HasId(mine, id) {
          return [Edit(NoSuchActiveTicket)];
        }
        ghost var i :| 0 <= i < |mine| && mine[i].id == id;
        assert mine[i] in mine;
        if BindingsSound(store.tickets, fsm.current) {
          SelectKeeps(store.tickets, fsm.current, mine[i], actor);
        }
        fsm.Bind(actor, id);
        out := [Edit(Switched(id))];
    }
  }

  /** `bot.send_message(chat_id=int(ticket.user_id), ...)`; nothing when `int` raises. */
  function ToCustomer(userId: string, m: Msg): (r: seq<Outgoing>)
    ensures r == [] <==> ParseInt(userId).None?
    ensures r != [] ==> |r| == 1 && r[0].Send? && r[0].msg == m && ParseInt(userId) == Some(r[0].chat)
  {
    match ParseInt(userId)
    case None => []
    case Some(chat) => [Send(chat, m)]
  }

  /** A ticket opened by customer `x` (stored as `str(x)`) is answered in `x`'s chat. */
  lemma ToCustomerOfKey(x: nat, m: Msg)
    ensures ToCustomer(Key(x), m) == [Send(x as int, m)]
  {
    KeyParses(x);
  }

  /**
    `handle_ticket_action` for `ticket_action:<verb>:<id>`.

    - A missing ticket, or one of another company, is refused first.
    - "assign" takes only an open ticket: it becomes in_progress with the
      caller as operator, the caller is bound to it, and the caller sees
      the customer's question while the customer is told.
    - "close" is allowed to the ticket's operator alone, whatever the
      status: the ticket becomes closed, the caller's binding is cleared
      exactly when it pointed at this ticket, and the customer is told.
    - Any other verb does nothing; data without a numeric third field
      makes the handler raise before anything changes.
  */
  method HandleTicketAction(store: Store, fsm: Fsm, actor: nat, data: string) returns (out: seq<Outgoing>)
    requires store.Valid()
    modifies store`tickets, fsm`current
    ensures store.Valid()
    ensures old(Lifecycle(store.tickets)) ==>
      Lifecycle(store.tickets) && Advanced(old(store.tickets), store.tickets) && NoSkip(old(store.tickets), store.tickets)
    ensures old(BindingsSound(store.tickets, fsm.current)) ==> BindingsSound(store.tickets, fsm.current)
    ensures match DecodeAction(data)
      case None => store.tickets == old(store.tickets) && fsm.current == old(fsm.current) && out == []
      case Some(a) =>
        var found := old(store.GetTicketById(a.id));
        if found.None? || found.value.companyId != Company then
          store.tickets == old(store.tickets) && fsm.current == old(fsm.current)
          && out == [Reply(TicketNotFoundOrForeign)]
        else if a.verb == "assign" then
          if found.value.status != Open then
            store.tickets == old(store.tickets) && fsm.current == old(fsm.current) && out == [Reply(AlreadyTaken)]
          else
            && store.tickets == Assigned(old(store.tickets), a.id, Key(actor))
            && fsm.current == old(fsm.current)[actor := a.id]
            && out == [Reply(Accepted(a.id)), Reply(ClientQuestion(found.value.questionText))]
                      + ToCustomer(found.value.userId, TakenNotice(a.id))
        else if a.verb == "close" then
          if found.value.operatorId != Some(Key(actor)) then
            store.tickets == old(store.tickets) && fsm.current == old(fsm.current) && out == [Reply(NotAssignee)]
          else
            var bound := old(fsm.Current(actor)) == Some(a.id);
            && store.tickets == ClosedAt(old(store.tickets), a.id)
            && fsm.current == (if bound then old(fsm.current) - {actor} else old(fsm.current))
            && out == [Reply(if bound then ClosedAndUnbound(a.id) else ClosedStillBound(a.id))]
                      + ToCustomer(found.value.userId, ClosedNotice(a.id))
        else
          store.tickets == old(store.tickets) && fsm.current == old(fsm.current) && out == []
  {
    var action := DecodeAction(data);
    if action.None? {
      return [];
    }
    var verb, id := action.value.verb, action.value.id;
    var found := store.GetTicketById(id);
    if found.None? || found.value.companyId != Company {
      return [Reply(TicketNotFoundOrForeign)];
    }
    assert found.value == store.tickets[id - 1];
    if verb == "assign" {
      out := TakeTicket(store, fsm, actor, id);
    } else if verb == "close" {
      out := CloseHeldTicket(store, fsm, actor, id);
    } else {
      out := [];
    }
  }

  /** The "assign" branch of `handle_ticket_action`, for a ticket of the company. */
  method TakeTicket(store: Store, fsm: Fsm, actor: nat, id: int) returns (out: seq<Outgoing>)
    requires store.Valid()
    requires 1 <= id <= |store.tickets| && store.tickets[id - 1].companyId == Company
    modifies store`tickets, fsm`current
    ensures store.Valid()
    ensures old(Lifecycle(store.tickets)) ==>
      Lifecycle(store.tickets) && Advanced(old(store.tickets), store.tickets) && NoSkip(old(store.tickets), store.tickets)
    ensures old(BindingsSound(store.tickets, fsm.current)) ==> BindingsSound(store.tickets, fsm.current)
    ensures var t := old(store.tickets[id - 1]);
      if t.status != Open then
        store.tickets == old(store.tickets) && fsm.current == old(fsm.current) && out == [Reply(AlreadyTaken)]
      else
        && store.tickets == Assigned(old(store.tickets), id, Key(actor))
        && fsm.current == old(fsm.current)[actor := id]
        && out == [Reply(Accepted(id)), Reply(ClientQuestion(t.questionText))] + ToCustomer(t.userId, TakenNotice(id))
  {
    var ticket := store.tickets[id - 1];
    if ticket.status != Open {
      return [Reply(AlreadyTaken)];
    }
    ghost var ts, cur := store.tickets, fsm.current;
    if Lifecycle(ts) {
      AssignTable(ts, id, Key(actor));
    }
    if BindingsSound(ts, cur) {
      AssignBindings(ts, cur, id, actor);
    }
    store.AssignTicket(id, Key(actor));
    fsm.Bind(actor, id);
    out := [Reply(Accepted(id)), Reply(ClientQuestion(ticket.questionText))]
           + ToCustomer(ticket.userId, TakenNotice(id));
  }

  /** The "close" branch of `handle_ticket_action`, for a ticket of the company. */
  method CloseHeldTicket(store: Store, fsm: Fsm, actor: nat, id: int) returns (out: seq<Outgoing>)
    requires store.Valid()
    requires 1 <= id <= |store.tickets|
    modifies store`tickets, fsm`current
    ensures store.Valid()
    ensures Advanced(old(store.tickets), store.tickets)
    ensures old(Lifecycle(store.tickets)) ==> Lifecycle(store.tickets) && NoSkip(old(store.tickets), store.tickets)
    ensures old(BindingsSound(store.tickets, fsm.current)) ==> BindingsSound(store.tickets, fsm.current)
    ensures var t := old(store.tickets[id - 1]);
      if t.operatorId != Some(Key(actor)) then
        store.tickets == old(store.tickets) && fsm.current == old(fsm.current) && out == [Reply(NotAssignee)]
      else
        var bound := old(fsm.Current(actor)) == Some(id);
        && store.tickets == ClosedAt(old(store.tickets), id)
        && fsm.current == (if bound then old(fsm.current) - {actor} else old(fsm.current))
        && out == [Reply(if bound then ClosedAndUnbound(id) else ClosedStillBound(id))]
                  + ToCustomer(t.userId, ClosedNotice(id))
  {
    var ticket := store.tickets[id - 1];
    if ticket.operatorId != Some(Key(actor)) {
      return [Reply(NotAssignee)];
    }
    ghost var ts, cur := store.tickets, fsm.current;
    if Lifecycle(ts) {
      CloseTable(ts, id, Key(actor));
    }
    if BindingsSound(ts, cur) {
      CloseBindings(ts, cur, id, actor);
    }
    store.CloseTicket(id);
    var current := fsm.Current(actor);
    var reply: Msg;
    if current == Some(id) {
      fsm.Clear(actor);
      reply := ClosedAndUnbound(id);
    } else {
      reply := ClosedStillBound(id);
    }
    out := [Reply(reply)] + ToCustomer(ticket.userId, ClosedNotice(id));
  }

  /**
    `forward_messages_between`: an operator with no current ticket (none,
    or the falsy 0) is told so; one bound to a ticket that no longer exists
    is unbound; otherwise the text goes to that ticket's customer. Under
    sound bindings the second case never arises and the recipient is the
    customer of a ticket the operator holds.
  */
  method ForwardOperatorText(store: Store, fsm: Fsm, actor: nat, text: string) returns (out: seq<Outgoing>)
    requires store.Valid()
    requires !("/" <= text)
    modifies fsm`current
    ensures old(BindingsSound(store.tickets, fsm.current)) ==> BindingsSound(store.tickets, fsm.current)
    ensures var b := old(fsm.Current(actor));
      if b.None? || b.value == 0 then
        fsm.current == old(fsm.current) && out == [Reply(NoCurrentTicket)]
      else match store.GetTicketById(b.value)
        case None => fsm.current == old(fsm.current) - {actor} && out == [Reply(CurrentTicketMissing)]
        case Some(t) => fsm.current == old(fsm.current) && out == ToCustomer(t.userId, OperatorSays(text))
    ensures old(BindingsSound(store.tickets, fsm.current)) && old(fsm.Current(actor)).Some? ==>
      var t := store.GetTicketById(old(fsm.current)[actor]);
      t.Some? && IsHeldBy(t.value, Key(actor), Company) && out == ToCustomer(t.value.userId, OperatorSays(text))
  {
    var b := fsm.Current(actor);
    if b.None? || b.value == 0 {
      return [Reply(NoCurrentTicket)];
    }
    var found := store.GetTicketById(b.value);
    if found.None? {
      fsm.Clear(actor);
      return [Reply(CurrentTicketMissing)];
    }
    assert BindingsSound(store.tickets, fsm.current) ==> IsHeldBy(found.value, Key(actor), Company);
    out := ToCustomer(found.value.userId, OperatorSays(text));
  }

  // ---------------------------------------------------------------------
  // Which handler a button press reaches
  // ---------------------------------------------------------------------

  /** The callback handlers of the operator router, in registration order. */
  datatype Callback =
    | OpenTicketCb | MyTicketCb | SelectCb | ShowActionsCb | TicketActionCb
    | RefreshCb | TicketsBackCb | BackToOpenCb | BackToMyCb

  /**
    The first handler whose filter (`startswith` or `==`) accepts the data.
    Every `ticket_action:` press reaches `handle_ticket_action`: the
    earlier `ticket:` filter does not accept it.
  */
  function Dispatch(data: string): (r: Option<Callback>)
    ensures "ticket_action:" <= data ==> r == Some(TicketActionCb)
    ensures r == Some(ShowActionsCb) ==> !("ticket_action:" <= data)
  {
    ActionNotShadowed(data);
    if "open_ticket:" <= data then Some(OpenTicketCb)
    else if "my_ticket:" <= data then Some(MyTicketCb)
    else if "select:" <= data then Some(SelectCb)
    else if "ticket:" <= data then Some(ShowActionsCb)
    else if "ticket_action:" <= data then Some(TicketActionCb)
    else if data == TicketsRefresh then Some(RefreshCb)
    else if data == TicketsBack then Some(TicketsBackCb)
    else if data == BackToOpen then Some(BackToOpenCb)
    else if data == BackToMy then Some(BackToMyCb)
    else None
  }

  /**
    Every button the operator keyboards carry reaches the handler meant for
    it: the prefixes do not shadow one another (in particular the unused
    `ticket:` handler never sees `ticket_action:` data). One lemma per
    kind of button.
  */
  lemma DispatchOpen(id: int)
    ensures Dispatch(OpenTicketData(id)) == Some(OpenTicketCb)
  {
    TaggedPrefix("open_ticket", id);
  }

  lemma DispatchMy(id: int)
    ensures Dispatch(MyTicketData(id)) == Some(MyTicketCb)
  {
    TaggedPrefix("my_ticket", id);
    DiffersAt("open_ticket:", MyTicketData(id), 0);
  }

  lemma DispatchSelect(id: int)
    ensures Dispatch(SelectData(id)) == Some(SelectCb)
  {
    TaggedPrefix("select", id);
    DiffersAt("open_ticket:", SelectData(id), 0);
    DiffersAt("my_ticket:", SelectData(id), 0);
  }

  lemma DispatchAssign(id: int)
    ensures Dispatch(AssignData(id)) == Some(TicketActionCb)
  {
    assert "ticket_action:assign" == "ticket_action:" + "assign";
    ActionPrefix("assign", id);
  }

  lemma DispatchClose(id: int)
    ensures Dispatch(CloseData(id)) == Some(TicketActionCb)
  {
    assert "ticket_action:close" == "ticket_action:" + "close";
    ActionPrefix("close", id);
  }

  lemma DispatchFixed()
    ensures Dispatch(SelectBack) == Some(SelectCb)
    ensures Dispatch(TicketsRefresh) == Some(RefreshCb)
    ensures Dispatch(TicketsBack) == Some(TicketsBackCb)
    ensures Dispatch(BackToOpen) == Some(BackToOpenCb)
    ensures Dispatch(BackToMy) == Some(BackToMyCb)
  {
    DiffersAt("open_ticket:", SelectBack, 0);
    DiffersAt("my_ticket:", SelectBack, 0);
    assert SelectBack[..7] == "select:";
    DiffersAt("open_ticket:", TicketsRefresh, 0);
    DiffersAt("my_ticket:", TicketsRefresh, 0);
    DiffersAt("select:", TicketsRefresh, 0);
    DiffersAt("ticket:", TicketsRefresh, 6);
    DiffersAt("ticket_action:", TicketsRefresh, 6);
    DiffersAt("open_ticket:", TicketsBack, 0);
    DiffersAt("my_ticket:", TicketsBack, 0);
    DiffersAt("select:", TicketsBack, 0);
    DiffersAt("ticket:", TicketsBack, 6);
    DiffersAt("ticket_action:", TicketsBack, 6);
    DiffersAt("open_ticket:", BackToOpen, 0);
    DiffersAt("my_ticket:", BackToOpen, 0);
    DiffersAt("select:", BackToOpen, 0);
    DiffersAt("ticket:", BackToOpen, 0);
    DiffersAt("ticket_action:", BackToOpen, 0);
    DiffersAt("open_ticket:", BackToMy, 0);
    DiffersAt("my_ticket:", BackToMy, 0);
    DiffersAt("select:", BackToMy, 0);
    DiffersAt("ticket:", BackToMy, 0);
    DiffersAt("ticket_action:", BackToMy, 0);
  }

  /** `f"{prefix}:{id}"` starts with `prefix + ":"`. */
  lemma TaggedPrefix(prefix: string, id: int)
    ensures prefix + ":" <= Tagged(prefix, id)
  {
    assert Tagged(prefix, id)[..|prefix| + 1] == prefix + ":";
  }

  /** Data with the `ticket_action:` prefix passes none of the filters before it. */
  lemma ActionNotShadowed(d: string)
    ensures "ticket_action:" <= d ==>
      !("open_ticket:" <= d) && !("my_ticket:" <= d) && !("select:" <= d) && !("ticket:" <= d)
  {
    if "ticket_action:" <= d {
      DiffersAt("open_ticket:", d, 0);
      DiffersAt("my_ticket:", d, 0);
      DiffersAt("select:", d, 0);
      DiffersAt("ticket:", d, 6);
    }
  }

  /** Action data passes the `ticket_action:` filter and none before it. */
  lemma ActionPrefix(verb: string, id: int)
    ensures var d := Tagged("ticket_action:" + verb, id);
      && "ticket_action:" <= d
      && !("open_ticket:" <= d) && !("my_ticket:" <= d) && !("select:" <= d) && !("ticket:" <= d)
  {
    var d := Tagged("ticket_action:" + verb, id);
    assert d[..14] == "ticket_action:";
    ActionNotShadowed(d);
  }

  // ---------------------------------------------------------------------
  // Which handler a text message reaches
  // ---------------------------------------------------------------------

  /** The message handlers of the operator router, grouped by their filters. */
  datatype TextHandler = CommandOrNone | OpenTicketsButton | MyTicketsButton | SelectButton | ForwardText

  /**
    The handler an operator's text reaches. A text starting with "/" goes to
    a `Command` handler (`/start_operator`, `/tickets`, `/my_tickets`) or to
    none, since the forwarding filter refuses it; the three menu buttons are
    taken by their `F.text ==` handlers, registered before the forwarding
    one; any other text is forwarded.
  */
  function DispatchMessage(text: string): TextHandler {
    if "/" <= text then CommandOrNone
    else if text == OperatorMenu[0][0] then OpenTicketsButton
    else if text == OperatorMenu[1][0] then MyTicketsButton
    else if text == OperatorMenu[2][0] then SelectButton
    else ForwardText
  }

  /** Each button of the operator menu reaches its own handler. */
  lemma DispatchMenu()
    ensures DispatchMessage(OperatorMenu[0][0]) == OpenTicketsButton
    ensures DispatchMessage(OperatorMenu[1][0]) == MyTicketsButton
    ensures DispatchMessage(OperatorMenu[2][0]) == SelectButton
  {
    DiffersAt("/", OperatorMenu[0][0], 0);
    DiffersAt("/", OperatorMenu[1][0], 0);
    DiffersAt("/", OperatorMenu[2][0], 0);
  }

  /**
    A text is forwarded (`ForwardOperatorText`) exactly when it does not
    start with "/" and is not a button of the operator menu: a command or
    a button press never reaches the customer.
  */
  lemma ForwardedExactly(text: string)
    ensures DispatchMessage(text) == ForwardText <==>
      !("/" <= text) && forall row :: row in OperatorMenu ==> text !in row
  {
    var a, b, c := OperatorMenu[0][0], OperatorMenu[1][0], OperatorMenu[2][0];
    assert OperatorMenu == [[a], [b], [c]];
    if text == a { assert text in OperatorMenu[0]; }
    if text == b { assert text in OperatorMenu[1]; }
    if text == c { assert text in OperatorMenu[2]; }
  }
}
