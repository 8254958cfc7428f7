/**
  bot/handlers/user_handlers.py: the customer side. The "📚 FAQ" and
  "contact operator" buttons open a session flow; `faq:` buttons answer a
  question; and every other text that does not start with "/"
  (`DispatchMessage`) goes through one ordered decision (`RouteText`): a
  new ticket, a keyword search, a message to the operator of the
  customer's active ticket, or the main menu.

  Handlers take the actor's Telegram id and the message text as values and
  return the Bot API calls they make. A Python exception ends a handler:
  what it already did to the store stays, and nothing more is sent.
*/
module UserHandlers {
  import opened Wrappers
  import opened Text
  import opened Models
  import opened Crud
  import opened Keyboards
  import opened Messages

  /** `[(f.id, f.question) for f in faqs]`: what the FAQ keyboard is built from. */
  function Questions(es: seq<FaqEntry>): (r: seq<(nat, string)>)
    ensures |r| == |es|
    ensures forall i :: 0 <= i < |es| ==> r[i] == (es[i].id, es[i].question)
  {
    seq(|es|, i requires 0 <= i < |es| => (es[i].id, es[i].question))
  }

  // ---------------------------------------------------------------------
  // Buttons of the main menu and `faq:` callbacks
  // ---------------------------------------------------------------------

  /**
    "📚 FAQ" (`show_faq_list`): with no entries for the company it only says
    so; otherwise it puts the customer in the browsing state and lists the
    questions. The session write fails (the handler raises, nothing is
    listed) when the customer already has a session of another company.
  */
  method ShowFaqList(store: Store, actor: nat) returns (out: seq<Outgoing>)
    requires store.Valid()
    modifies store`sessions
    ensures store.Valid()
    ensures var faqs := store.GetFaqEntries(Company);
      var up := Upserted(old(store.sessions), Key(actor), Company, BrowsingFaq);
      && (faqs == [] ==> store.sessions == old(store.sessions) && out == [Reply(NoFaqYet)])
      && (faqs != [] && up.None? ==> store.sessions == old(store.sessions) && out == [])
      && (faqs != [] && up.Some? ==>
            store.sessions == up.value && out == [Reply(ChooseQuestion(FaqList(Questions(faqs))))])
  {
    var faqs := store.GetFaqEntries(Company);
    var simplified := Questions(faqs);
    if simplified == [] {
      return [Reply(NoFaqYet)];
    }
    var ok := store.UpsertUserSession(Key(actor), Company, BrowsingFaq);
    if !ok {
      return [];
    }
    var kb := FaqListKeyboard(simplified);
    out := [Reply(ChooseQuestion(kb))];
  }

  /**
    "👨‍💻 Связаться с оператором" (`start_ticket_flow`): always asks for the
    problem and puts the customer in the awaiting-text state, unless the
    session write fails.
  */
  method StartTicketFlow(store: Store, actor: nat) returns (out: seq<Outgoing>)
    requires store.Valid()
    modifies store`sessions
    ensures store.Valid()
    ensures var up := Upserted(old(store.sessions), Key(actor), Company, AwaitingTicketText);
      && (up.None? ==> store.sessions == old(store.sessions) && out == [])
      && (up.Some? ==> store.sessions == up.value && out == [Reply(DescribeProblem)])
    ensures out != [] ==> store.GetUserSession(Key(actor)).Some?
                          && store.GetUserSession(Key(actor)).value.state == Some(AwaitingTicketText)
  {
    var ok := store.UpsertUserSession(Key(actor), Company, AwaitingTicketText);
    if !ok {
      return [];
    }
    out := [Reply(DescribeProblem)];
  }

  /**
    `handle_faq_selection`: "back" and any number, found or not, end the
    customer's session; data whose second field is missing or is not a
    number makes the handler raise before anything changes.
  */
  method HandleFaqSelection(store: Store, actor: nat, data: string) returns (out: seq<Outgoing>)
    requires store.Valid()
    modifies store`sessions
    ensures store.Valid()
    ensures match DecodeChoice(data)
      case Malformed => store.sessions == old(store.sessions) && out == []
      case Back =>
        store.sessions == old(store.sessions) - {Key(actor)} && out == [Reply(BackToMainMenu(MainMenu))]
      case Pick(id) =>
        && store.sessions == old(store.sessions) - {Key(actor)}
        && out == [Reply(match store.GetFaqById(id)
                         case Some(e) => FaqAnswer(e.answer, MainMenu)
                         case None => FaqNotFound(MainMenu))]
    ensures !DecodeChoice(data).Malformed? ==> store.GetUserSession(Key(actor)) == None
  {
    var choice := DecodeChoice(data);
    match choice {
      case Malformed =>
        out := [];
      case Back =>
        store.DeleteUserSession(Key(actor));
        out := [Reply(BackToMainMenu(MainMenu))];
      case Pick(id) =>
        var entry := store.GetFaqById(id);
        var msg := if entry.Some? then FaqAnswer(entry.value.answer, MainMenu) else FaqNotFound(MainMenu);
        store.DeleteUserSession(Key(actor));
        out := [Reply(msg)];
    }
  }

  // ---------------------------------------------------------------------
  // Free text: the ordered decision
  // ---------------------------------------------------------------------

  /** The branch `handle_text_during_states` takes. */
  datatype Route = NewTicket(company: int) | SearchFaq(company: int) | ToOperator(ticket: Ticket) | Fallback

  /** Whether the customer is in one of the two session flows. */
  predicate InFlow(us: Option<UserSession>) {
    us.Some? && (us.value.state == Some(AwaitingTicketText) || us.value.state == Some(BrowsingFaq))
  }

  /**
    The branch for a customer with session `us` and active ticket `active`:
    the awaiting-text session first, then the browsing session (both in the
    session's company), then an in_progress ticket, then the menu. A
    customer in a session flow is never forwarded, whatever tickets they
    have.
  */
  function RouteText(us: Option<UserSession>, active: Option<Ticket>): (r: Route)
    ensures r.NewTicket? <==> us.Some? && us.value.state == Some(AwaitingTicketText)
    ensures r.SearchFaq? <==> us.Some? && us.value.state == Some(BrowsingFaq)
    ensures (r.NewTicket? || r.SearchFaq?) ==> r.company == us.value.companyId
    ensures r.ToOperator? <==> !InFlow(us) && active.Some?
    ensures r.ToOperator? ==> r.ticket == active.value
    ensures r.Fallback? <==> !InFlow(us) && active.None?
  {
    if us.Some? && us.value.state == Some(AwaitingTicketText) then NewTicket(us.value.companyId)
    else if us.Some? && us.value.state == Some(BrowsingFaq) then SearchFaq(us.value.companyId)
    else if active.Some? then ToOperator(active.value)
    else Fallback
  }

  /**
    The new-ticket notices, in operator order: one per operator id, except
    those whose send fails (`unreachable`), which are skipped.
  */
  function Notices(ids: seq<nat>, unreachable: set<int>, m: Msg): seq<Outgoing> {
    if ids == [] then []
    else
      var last := ids[|ids| - 1];
      Notices(ids[..|ids| - 1], unreachable, m) + (if last as int in unreachable then [] else [Send(last, m)])
  }

  /**
    Exactly the reachable operators get the notice, and nothing else is
    sent: a failed send skips that operator alone.
  */
  lemma {:induction false} NoticesReach(ids: seq<nat>, unreachable: set<int>, m: Msg, x: int)
    ensures Send(x, m) in Notices(ids, unreachable, m) <==>
      (exists i :: 0 <= i < |ids| && ids[i] == x) && x !in unreachable
    ensures forall o :: o in Notices(ids, unreachable, m) ==> o.Send? && o.msg == m
    decreases |ids|
  {
    if ids != [] {
      var init := ids[..|ids| - 1];
      NoticesReach(init, unreachable, m, x);
      if exists i :: 0 <= i < |ids| && ids[i] == x {
        var i :| 0 <= i < |ids| && ids[i] == x;
        if i < |ids| - 1 { assert init[i] == x; }
      }
      if exists i :: 0 <= i < |init| && init[i] == x {
        var i :| 0 <= i < |init| && init[i] == x;
        assert ids[i] == x;
      }
    }
  }

  /** The `for op_id in operator_ids` loop with its `try`/`continue`. */
  method NotifyOperators(ids: seq<nat>, unreachable: set<int>, m: Msg) returns (sent: seq<Outgoing>)
    ensures sent == Notices(ids, unreachable, m)
  {
    sent := [];
    var i := 0;
    while i < |ids|
      invariant 0 <= i <= |ids|
      invariant sent == Notices(ids[..i], unreachable, m)
    {
      assert ids[..i + 1][..i] == ids[..i];
      if ids[i] as int !in unreachable {
        sent := sent + [Send(ids[i], m)];
      }
      i := i + 1;
    }
    assert ids[..i] == ids;
  }

  const FoundTitle: string := "Найдены следующие вопросы:"

  /** The bullet lines of the search result. */
  function Bullets(es: seq<FaqEntry>): (r: seq<string>)
    ensures |r| == |es|
    ensures forall i :: 0 <= i < |es| ==> r[i] == "• " + es[i].question
  {
    seq(|es|, i requires 0 <= i < |es| => "• " + es[i].question)
  }

  /** The reply text for a non-empty search result. */
  function FoundText(es: seq<FaqEntry>): string {
    FoundTitle + "\n\n" + Lines(Bullets(es))
  }

  /**
    The reply reads back line by line as the header, a blank line, one
    "• question" line per result in order, and nothing after the last
    newline (for questions written on one line).
  */
  lemma FoundTextLines(es: seq<FaqEntry>)
    requires forall i :: 0 <= i < |es| ==> '\n' !in es[i].question
    ensures Split(FoundText(es), '\n') == [FoundTitle, ""] + Bullets(es) + [""]
  {
    var b := Bullets(es);
    forall k | 0 <= k < |b| ensures '\n' !in b[k] {
      assert b[k] == "• " + es[k].question;
    }
    var ls := [""] + b;
    forall k | 0 <= k < |ls| ensures '\n' !in ls[k] {
      if k > 0 { assert ls[k] == b[k - 1]; }
    }
    LinesCons("", b);
    assert FoundText(es) == FoundTitle + "\n" + Lines(ls);
    TitleOneLine();
    SplitTitled(FoundTitle, ls);
  }

  lemma TitleOneLine()
    ensures '\n' !in FoundTitle
  {
  }

  /** The search loop: the reply text and the `(id, question)` pairs, built together. */
  method MatchList(results: seq<FaqEntry>) returns (text: string, simplified: seq<(nat, string)>)
    ensures text == FoundText(results)
    ensures simplified == Questions(results)
  {
    text := FoundTitle + "\n\n";
    simplified := [];
    var i := 0;
    while i < |results|
      invariant 0 <= i <= |results|
      invariant text == FoundTitle + "\n\n" + Lines(Bullets(results[..i]))
      invariant simplified == Questions(results[..i])
    {
      assert Bullets(results[..i + 1]) == Bullets(results[..i]) + ["• " + results[i].question];
      LinesSnoc(Bullets(results[..i]), "• " + results[i].question);
      assert Questions(results[..i + 1]) == Questions(results[..i]) + [(results[i].id, results[i].question)];
      text := text + ("• " + results[i].question + "\n");
      simplified := simplified + [(results[i].id, results[i].question)];
      i := i + 1;
    }
    assert results[..i] == results;
  }

  /**
    What the browsing branch replies for the search results: one reply,
    the not-found notice exactly when nothing matched.
  */
  function SearchReply(results: seq<FaqEntry>): (r: seq<Outgoing>)
    ensures |r| == 1 && r[0].Reply?
    ensures r[0].msg == NothingFound <==> results == []
  {
    if results == [] then [Reply(NothingFound)]
    else [Reply(FoundQuestions(FoundText(results), FaqList(Questions(results))))]
  }

  /** `int(active_ticket.operator_id)`: None where Python raises (no operator, not a number). */
  function OperatorChat(op: Option<string>): (r: Option<int>)
    ensures op.None? ==> r.None?
    ensures r.Some? ==> ParseInt(op.value) == r
  {
    match op
    case None => None
    case Some(s) => ParseInt(s)
  }

  /**
    A ticket taken by operator `x` (whose column holds `str(x)`) forwards
    to `x`'s chat; a ticket without operator forwards nowhere.
  */
  lemma OperatorChatOfKey(x: nat)
    ensures OperatorChat(Some(Key(x))) == Some(x as int)
    ensures OperatorChat(None) == None
  {
    KeyParses(x);
  }

  /**
    `handle_text_during_states`. `fold` is the database's case folding for
    the keyword search and `unreachable` the operators whose notice fails.

    - New ticket: exactly one open ticket without operator is appended, for
      the session's company, with the stripped text; the notice goes to the
      reachable active operators of that company; the session is deleted
      and the customer is told the ticket is registered.
    - Search: the stripped text is the keyword; nothing changes.
    - To operator: the unstripped text goes to the ticket's operator;
      nothing changes.
    - Fallback: the main menu; nothing changes.
  */
  method HandleTextDuringStates(store: Store, actor: nat, text: string, fold: char -> char, unreachable: set<int>)
    returns (route: Route, out: seq<Outgoing>)
    requires store.Valid()
    requires !("/" <= text)
    modifies store`tickets, store`sessions
    ensures store.Valid()
    ensures route == RouteText(old(store.GetUserSession(Key(actor))), old(store.GetActiveTicketByUser(Key(actor))))
    ensures route.NewTicket? ==>
      var t := Ticket(|old(store.tickets)| + 1, route.company, Key(actor), None, Strip(text), Open);
      && store.tickets == old(store.tickets) + [t]
      && store.sessions == old(store.sessions) - {Key(actor)}
      && out == Notices(store.GetActiveOperatorIds(route.company), unreachable,
                        NewTicketNotice(t.id, t.questionText, TicketActionsKeyboard(t.id, "open")))
                + [Reply(TicketRegistered(MainMenu))]
    ensures !route.NewTicket? ==> store.tickets == old(store.tickets) && store.sessions == old(store.sessions)
    ensures route.SearchFaq? ==> out == SearchReply(store.GetFaqByKeyword(fold, route.company, Strip(text)))
    ensures route.ToOperator? ==>
      out == match OperatorChat(route.ticket.operatorId)
             case None => []
             case Some(chat) => [Send(chat, ClientSays(route.ticket.id, text))]
    ensures route.Fallback? ==> out == [Reply(NotRecognized(MainMenu))]
  {
    var user := Key(actor);
    var us := store.GetUserSession(user);
    var active := store.GetActiveTicketByUser(user);
    route := RouteText(us, active);
    match route {
      case NewTicket(company) =>
        var t := store.CreateTicket(company, user, Strip(text));
        var ids := store.GetActiveOperatorIds(company);
        var notices := NotifyOperators(ids, unreachable, NewTicketNotice(t.id, t.questionText, TicketActionsKeyboard(t.id, "open")));
        store.DeleteUserSession(user);
        out := notices + [Reply(TicketRegistered(MainMenu))];
      case SearchFaq(company) =>
        var results := store.GetFaqByKeyword(fold, company, Strip(text));
        if results != [] {
          var reply, simplified := MatchList(results);
          var kb := FaqListKeyboard(simplified);
          out := [Reply(FoundQuestions(reply, kb))];
        } else {
          out := [Reply(NothingFound)];
        }
      case ToOperator(ticket) =>
        match OperatorChat(ticket.operatorId) {
          case None => out := [];
          case Some(chat) => out := [Send(chat, ClientSays(ticket.id, text))];
        }
      case Fallback =>
        out := [Reply(NotRecognized(MainMenu))];
    }
  }

  /**
    A new ticket's notice reaches an operator exactly when that operator is
    an active operator of the ticket's company and is reachable.
  */
  lemma NoticeRecipients(store: Store, company: int, unreachable: set<int>, m: Msg, x: int)
    requires store.Valid()
    ensures Send(x, m) in Notices(store.GetActiveOperatorIds(company), unreachable, m) <==>
      (exists o :: o in store.operators && IsActiveOperatorOf(o, company) && DigitsValue(o.telegramId) == x)
      && x !in unreachable
  {
    var ids := store.GetActiveOperatorIds(company);
    NoticesReach(ids, unreachable, m, x);
    if exists i :: 0 <= i < |ids| && ids[i] == x {
      var i :| 0 <= i < |ids| && ids[i] == x;
      assert ids[i] in ids;
    }
    if x >= 0 && x in ids {
      var i :| 0 <= i < |ids| && ids[i] == x;
    }
  }

  // ---------------------------------------------------------------------
  // Which handler a text message reaches
  // ---------------------------------------------------------------------

  /** The message handlers of the customer router, grouped by their filters. */
  datatype TextHandler = CommandOrCatchAll | FaqButton | ContactButton | InfoButton | StateText

  /**
    The handler a customer's text reaches. A text starting with "/" goes to
    `/start` or to the `catch_all` handler, which only logs it, since the
    `~F.text.startswith("/")` filter refuses it; the three main-menu buttons
    are taken by their `F.text ==` handlers, registered before the state
    handler; any other text reaches `HandleTextDuringStates`.
  */
  function DispatchMessage(text: string): TextHandler {
    if "/" <= text then CommandOrCatchAll
    else if text == MainMenu[0][0] then FaqButton
    else if text == MainMenu[1][0] then ContactButton
    else if text == MainMenu[2][0] then InfoButton
    else StateText
  }

  /** Each button of the main menu reaches its own handler, whatever the session. */
  lemma DispatchMenu()
    ensures DispatchMessage(MainMenu[0][0]) == FaqButton
    ensures DispatchMessage(MainMenu[1][0]) == ContactButton
    ensures DispatchMessage(MainMenu[2][0]) == InfoButton
  {
    DiffersAt("/", MainMenu[0][0], 0);
    DiffersAt("/", MainMenu[1][0], 0);
    DiffersAt("/", MainMenu[2][0], 0);
  }

  /**
    A text reaches the state handler exactly when it does not start with
    "/" and is not a main-menu button: "/help" typed while a ticket text is
    awaited creates no ticket and keeps the session.
  */
  lemma StateTextExactly(text: string)
    ensures DispatchMessage(text) == StateText <==>
      !("/" <= text) && forall row :: row in MainMenu ==> text !in row
  {
    var a, b, c := MainMenu[0][0], MainMenu[1][0], MainMenu[2][0];
    assert MainMenu == [[a], [b], [c]];
    if text == a { assert text in MainMenu[0]; }
    if text == b { assert text in MainMenu[1]; }
    if text == c { assert text in MainMenu[2]; }
  }

}
