# A verified model of the support bot's ticket and conversation engine

The bot is a Telegram help desk with three kinds of users:

- **Customers** browse an FAQ, search it by keyword and open tickets. They then chat through the bot with the operator who took their ticket.
- **Operators** list the open tickets and their own, take a ticket, close it and choose which ticket their messages go to (the "current ticket").
- **Admins** register and deactivate operators and edit the FAQ, all by chat commands.

Every update reaches three routers in a fixed order: admin, operator, customer. Each router has a role filter that decides whether it sees the update.

This project models that engine with the chat library stripped away:

- The database layer is the class `Crud.Store`. It holds four tables:
  - tickets, kept as a sequence in id order;
  - operators, kept as a sequence in id order;
  - FAQ entries, kept in increasing id order with a counter for the next id;
  - customer sessions, kept as a map keyed by the customer's id.
- Each query is a function over the store.
- Each update is a method whose `ensures` states the whole new table as a function of the old one (`Assigned`, `ClosedAt`, `Registered`, `Deactivated`, `FaqsUpdated`, `Upserted`).
- Handlers are methods. They take:
  - the store;
  - the operators' per-chat FSM data, modelled as the class `OperatorHandlers.Fsm`;
  - the actor's Telegram id;
  - the message text or callback data.

  They return the Bot API calls they make, as `Messages.Outgoing` values: a reply, a message sent to another chat, or an edit.
- The guards the handlers check and the order of their early returns are stated as contracts. These are:
  - a ticket can be taken only while it is open;
  - only its operator can close it;
  - `select:` binds only one of the operator's own tickets;
  - `admin_only` admits only admins.
- The ticket table and the bindings have invariants, and every step is proved to keep them:
  - `Models.Lifecycle`: a ticket has an operator exactly when it is no longer open.
  - `Models.Advanced`: statuses only move forward, and a ticket's operator never changes once set.
  - `Models.NoSkip`: no step goes straight from open to closed.
  - `OperatorHandlers.BindingsSound`: an operator's current ticket is one they hold.
- The pure parts are functions with round-trip and rejection lemmas. These are:
  - the command parsers of the admin side;
  - the callback-data strings the keyboards write and the handlers read back with `split(":")` and `int()`;
  - the comma-separated admin list.

Python's string built-ins are given in Dafny in module `Text`:

- `strip` and `isspace`, over the characters CPython treats as whitespace;
- `isdigit` and `int()` over ASCII digits; `int()` accepts an optional sign;
- `str()` of an integer;
- `split(sep)`, `split(maxsplit=n)` and `split("|", maxsplit=1)`;
- the `text += line + "\n"` loops.

Two behaviours of the code that a reader might not expect; the model follows the code:

- Creating a ticket does not reject an empty (or all-whitespace) text. `user_handlers.py:147` strips the text and creates the ticket whatever remains.
- Closing has no status check: the ticket's operator may close it again. The code also does not limit a customer to one active ticket. `get_active_ticket_by_user` returns the first in-progress ticket of that customer.

## Model

| member | source | states |
|---|---|---|
| Text.Strip | bot/config.py:19 | `strip()` leaves neither end whitespace, never lengthens, and gives "" exactly for all-whitespace text |
| Text.StripPadded | bot/handlers/admin_handlers.py:86 | stripping whitespace from around an already trimmed text gives that text back |
| Text.ShowNatValue | bot/config.py:19 | the digits of `str(n)` spell `n` again |
| Text.ParseShowNat | bot/handlers/user_handlers.py:216 | `int(str(n)) == n` for every natural number |
| Text.ParseShowInt | bot/handlers/operator_handlers.py:182 | `int(str(i)) == i` for every integer, negative ones included |
| Text.ParseDigits | bot/filters.py:33 | `int(s)` of a digit string is the number it spells |
| Text.ParseInt | bot/handlers/operator_handlers.py:182 | `int()` gives a number only for a text that, stripped, is digits with at most one leading sign; a stripped digit string gives the number it spells; anything else is None, where Python raises |
| Text.Split | bot/config.py:20 | the parts of `s.split(sep)` hold no separator and join back to `s` |
| Text.SplitJoin | bot/config.py:20 | `split` undoes `join` when no part contains the separator |
| Text.SplitPair | bot/keyboards.py:42 | `f"{a}:{b}".split(":") == [a, b]` for separator-free `a` and `b` |
| Text.SplitFirst | bot/handlers/admin_handlers.py:86 | splitting at the first separator: none exactly when absent; the left side holds none and the sides rejoin to the input |
| Text.SplitFirstOf | bot/handlers/admin_handlers.py:86 | a separator-free left side and any right side are recovered by the first-separator split |
| Text.SplitWs | bot/handlers/admin_handlers.py:36 | `split(maxsplit=n)`: at most n+1 parts, each non-empty and starting with a non-space, all but the last without whitespace; no parts exactly for all-whitespace text |
| Text.SplitWsWord | bot/handlers/admin_handlers.py:36 | a word followed by whitespace splits off as the first part, with one split fewer for the rest |
| Text.SplitWsTrim | bot/handlers/admin_handlers.py:60 | leading whitespace does not change a whitespace split |
| Text.SplitLines | bot/handlers/admin_handlers.py:157-158 | the text built by appending `line + "\n"` splits at newlines into the lines, then an empty tail |
| Text.SplitTitled | bot/handlers/user_handlers.py:197-200 | the same after a one-line heading |
| Text.Take | bot/keyboards.py:63 | `preview[:30]` is a prefix of at most 30 characters, the whole text when shorter |
| Text.ContainsImpliesFolded | bot/crud.py:76-86 | a literal occurrence of the keyword is found whatever the case folding |
| Text.EmptyNeedle | bot/crud.py:80-81 | the empty keyword (pattern `%%`) matches every text |
| Models.Key | bot/handlers/user_handlers.py:140 | `str(from_user.id)` is a digit string |
| Models.KeyParses | bot/handlers/user_handlers.py:216 | a stored id reads back with `int()` as the actor's id |
| Models.KeyInjective | bot/handlers/operator_handlers.py:222 | two actors with the same stored id are the same actor |
| Models.Rank | bot/models.py:56-57 | the order open < in_progress < closed, with open first and closed last |
| Crud.Filter | bot/crud.py:185-189 | `select ... where p` returns exactly the rows satisfying p, never more rows than the table |
| Crud.FilterAppend | bot/crud.py:185-189 | filtering keeps table order: a filter of two halves is the two filters joined |
| Crud.FindFirst | bot/crud.py:14-25 | `first()`: the position of a row satisfying p with none before it, or None when no row does |
| Crud.Assigned | bot/crud.py:199-205 | the ticket with that id gets the operator and in_progress; every other row is unchanged |
| Crud.ClosedAt | bot/crud.py:215-219 | the ticket with that id gets closed, its operator and other fields kept; every other row is unchanged |
| Crud.Registered | bot/crud.py:113-150 | a row with that Telegram id, in any state, is reactivated and renamed and no row is added; otherwise one active row is appended; ids stay unique |
| Crud.Deactivated | bot/crud.py:160-167 | only `is_active` of the row with that id is cleared; no row is removed |
| Crud.FaqsUpdated | bot/crud.py:102-108 | question and answer of the entry with that id are rewritten, ids and companies kept, other entries unchanged |
| Crud.Upserted | bot/crud.py:224-244 | a hit on (user, company) overwrites only `state`; a miss inserts a row with no data; a miss while the user has a row of another company breaks the primary key (None); other sessions untouched |
| Crud.TelegramNumbers | bot/crud.py:40 | `[int(op.telegram_id) for op in ops]`, one number per operator in order |
| Crud.FilterKeepsIncreasing | bot/crud.py:97-99 | deleting FAQ entries keeps the ids increasing and below the next id |
| Crud.FilterSubsequence | bot/crud.py:97-99 | a filtered table keeps the relative order of its ids |
| Crud.Store.GetTicketById | bot/crud.py:192-196 | the ticket with that id, or None exactly when there is none |
| Crud.Store.GetActiveTicketByUser | bot/crud.py:14-25 | an in_progress ticket of that customer, None only when there is none |
| Crud.Store.GetOpenTickets | bot/crud.py:185-189 | exactly the company's open tickets |
| Crud.Store.GetTicketsByOperator | bot/crud.py:208-212 | exactly the company's in_progress tickets held by that operator |
| Crud.Store.CreateTicket | bot/crud.py:172-182 | one ticket is appended with the next id, the given company, customer and text, status open and no operator; the others are unchanged |
| Crud.Store.AssignTicket | bot/crud.py:199-205 | the table becomes `Assigned(old, id, op)`, unconditionally |
| Crud.Store.CloseTicket | bot/crud.py:215-219 | the table becomes `ClosedAt(old, id)`, unconditionally |
| Crud.Store.GetFaqEntries | bot/crud.py:62-66 | exactly the company's entries |
| Crud.Store.GetFaqById | bot/crud.py:69-73 | the entry with that id, of any company, or None exactly when there is none |
| Crud.Store.GetFaqByKeyword | bot/crud.py:76-86 | exactly the company's entries whose question or answer contains the keyword under the database's case folding |
| Crud.Store.CreateFaqEntry | bot/crud.py:89-94 | one entry is appended with a fresh id larger than all others, and the counter moves on |
| Crud.Store.DeleteFaqEntry | bot/crud.py:97-99 | exactly the entry with that id is removed, if there is one |
| Crud.Store.UpdateFaqEntry | bot/crud.py:102-108 | the FAQ table becomes `FaqsUpdated(old, id, q, a)` |
| Crud.Store.GetOperators | bot/crud.py:152-156 | exactly the active rows of the company |
| Crud.Store.GetActiveOperatorIds | bot/crud.py:27-42 | one `int(telegram_id)` per active operator row of the company, in table order, so a number stored twice ("7", "007") is listed twice; a number is listed exactly when it is that of an active operator of the company |
| Crud.Store.AddOperator | bot/crud.py:113-150 | the operator table becomes `Registered(old, company, tg, name)`; the returned row is active with that id and name |
| Crud.Store.DeactivateOperator | bot/crud.py:160-167 | the operator table becomes `Deactivated(old, id)` |
| Crud.Store.GetUserSession | bot/crud.py:247-251 | the customer's session exactly when there is one, keyed by that id |
| Crud.Store.UpsertUserSession | bot/crud.py:224-244 | the sessions become `Upserted(old, ...)`, or stay as they were when the insert fails; afterwards the session reads back with the new state |
| Crud.Store.DeleteUserSession | bot/crud.py:254-256 | the session is gone and reads back as None; deleting an absent session changes nothing |
| Config.SegmentId | bot/config.py:19-21 | a segment gives its number exactly when it is all digits once stripped, and nothing otherwise |
| Config.AdminList | bot/config.py:16-22 | never more ids than comma-separated segments, and every id is at least 0 |
| Config.AdminListSound | bot/config.py:18-22 | every listed id is the number of one of the segments, stripped and all digits |
| Config.AdminListRoundTrip | bot/config.py:16-22 | numerals with any whitespace around them, joined by commas, read back as exactly that list in order |
| Config.AdminListIgnoresSpaces | bot/config.py:19-21 | segments that agree once stripped give the same list |
| Config.AdminListSkips | bot/config.py:21 | a segment that is not a numeral once stripped ("", "-5", "abc") is dropped as if absent, without error |
| Config.AdminListHas | bot/config.py:16-22 | an id is listed exactly when one of the comma-separated segments, stripped, is all digits and spells it |
| Config.AdminListOfJoin | bot/config.py:16-22 | any comma-free segments joined by commas read back, in order, as the contributions of those segments, padded numerals, leading zeros and junk included |
| Filters.Any | bot/filters.py:33 | `any(p(x) for x in xs)` holds exactly when some element satisfies p |
| Filters.IsAdmin | bot/filters.py:13-20 | `user_id in config.get_admin_list` holds exactly when some comma-separated segment of the configured string, stripped, is a numeral spelling the actor's id |
| Filters.IsOperator | bot/filters.py:24-33 | holds exactly when an active operator of company 1 has `int(telegram_id)` equal to the actor's id |
| Filters.IsUser | bot/filters.py:37-54 | holds exactly when the actor is neither an admin nor an active operator |
| Filters.Routers | bot/main.py:42-44 | at least one router's filter admits the actor (an admin's free text passes the admin filter although no admin handler takes it); admin and operator routers exactly for those roles; the customer router exactly when it is the only one; an admin reaches the admin router first; registration order is kept |
| Filters.CandidatesAdmitted | bot/main.py:30-39 | a router is tried exactly when its filter admits the actor |
| Filters.DeactivatedIsUser | bot/filters.py:37-54 | deactivating the only row with an operator's number makes them a customer again, unless they are an admin |
| Filters.RegisteredIsOperator | bot/filters.py:24-33 | registering an id makes its owner an operator |
| Keyboards.SplitTagged | bot/keyboards.py:42 | `f"{prefix}:{id}"` splits into exactly the tag and the numeral |
| Keyboards.TaggedField | bot/handlers/operator_handlers.py:93 | `int(data.split(":")[1])` of a one-tag button is the id it was built with |
| Keyboards.Field | bot/handlers/operator_handlers.py:93 | `int(data.split(":")[k])`: None when there is no field k (IndexError) or it is not a number (ValueError); otherwise `int()` of that field |
| Keyboards.DecodeChoice | bot/handlers/user_handlers.py:72-84 | back exactly when the second field is "back"; otherwise an id only when the second field reads with `int()`, else malformed (the handler raises) |
| Keyboards.DecodeAction | bot/handlers/operator_handlers.py:180-182 | the verb is the second field and the id `int()` of the third; None with fewer than three fields or a non-numeric third |
| Keyboards.SplitAction | bot/keyboards.py:113 | `ticket_action:<verb>:<id>` splits into its three fields |
| Keyboards.DecodeFaqData | bot/handlers/user_handlers.py:72-84 | the `faq:` handler reads `faq:<id>` back as that id |
| Keyboards.DecodeSelectData | bot/handlers/operator_handlers.py:140-154 | the `select:` handler reads `select:<id>` back as that id |
| Keyboards.DecodeBacks | bot/handlers/user_handlers.py:77 | `faq:back` and `select:back` read back as the back button |
| Keyboards.DecodeAssignData | bot/handlers/operator_handlers.py:180-182 | the action handler reads the accept button as ("assign", id) |
| Keyboards.DecodeCloseData | bot/handlers/operator_handlers.py:180-182 | the action handler reads the close button as ("close", id) |
| Keyboards.Rows | bot/keyboards.py:37-44 | one row per item, in order |
| Keyboards.FaqList | bot/keyboards.py:25-48 | one `faq:<id>` row per entry in order, then exactly one extra row holding the single back button `faq:back` |
| Keyboards.OpenList | bot/keyboards.py:52-72 | one `open_ticket:<id>` row per ticket in order, then one extra row with refresh and back side by side |
| Keyboards.MyList | bot/keyboards.py:75-94 | one `my_ticket:<id>` row per ticket in order, then one extra row holding the single `tickets:back` button |
| Keyboards.SelectList | bot/keyboards.py:154-172 | one `select:<id>` row per ticket in order, then one extra row holding the single `select:back` button |
| Keyboards.FaqListKeyboard | bot/keyboards.py:25-48 | the loop builds exactly the FAQ layout: the entry rows, then the back row |
| Keyboards.OperatorTicketsKeyboard | bot/keyboards.py:52-72 | the loop builds exactly the open-ticket layout |
| Keyboards.OperatorMyTicketsKeyboard | bot/keyboards.py:75-94 | the loop builds exactly the own-ticket layout |
| Keyboards.SelectTicketKeyboard | bot/keyboards.py:154-172 | the loop builds exactly the switch layout |
| Keyboards.FaqListRoundTrip | bot/keyboards.py:37-48 | len(entries)+1 rows; row i shows entry i's question and reads back as its id; the last row is the single `faq:back` button |
| Keyboards.OpenListRoundTrip | bot/keyboards.py:59-72 | one row per ticket labelled with its id and the first 30 characters, reading back as the id; then refresh and back side by side |
| Keyboards.MyListRoundTrip | bot/keyboards.py:82-94 | the same rows with `my_ticket:`, then one `tickets:back` row |
| Keyboards.SelectListRoundTrip | bot/keyboards.py:162-172 | `select:<id>` rows that read back as the ids, then `select:back`, which reads back as back |
| Keyboards.TicketActionsKeyboard | bot/keyboards.py:98-133 | exactly three rows: accept and close read back as (verb, id); back is `back_to_open` exactly when origin is "open", `back_to_my` otherwise |
| UserHandlers.Questions | bot/handlers/user_handlers.py:46 | `[(f.id, f.question) for f in faqs]`, in order |
| UserHandlers.ShowFaqList | bot/handlers/user_handlers.py:39-65 | no entries: only a notice, sessions unchanged; otherwise the browsing state is written and the question keyboard sent; nothing is sent when the write fails |
| UserHandlers.StartTicketFlow | bot/handlers/user_handlers.py:101-116 | always writes the awaiting-text state and asks for the problem, unless the write fails; afterwards the session reads back in that state |
| UserHandlers.HandleFaqSelection | bot/handlers/user_handlers.py:70-96 | back, a found id and a missing id all delete the session, with the answer or a not-found reply; malformed data raises before any change |
| UserHandlers.RouteText | bot/handlers/user_handlers.py:145-228 | awaiting-text first, browsing second, both in the session's company; then an in_progress ticket; else the menu; a customer in either flow is never forwarded |
| UserHandlers.NoticesReach | bot/handlers/user_handlers.py:167-177 | an operator gets the notice exactly when listed and reachable; a failed send skips that operator alone; nothing else is sent |
| UserHandlers.NotifyOperators | bot/handlers/user_handlers.py:167-177 | the loop sends exactly the notices of `Notices` |
| UserHandlers.Bullets | bot/handlers/user_handlers.py:200 | one "• question" line per result, in order |
| UserHandlers.FoundTextLines | bot/handlers/user_handlers.py:197-200 | the search reply reads back line by line as the heading, a blank line, one bullet per result, and an empty tail |
| UserHandlers.SearchReply | bot/handlers/user_handlers.py:196-207 | exactly one reply; it is the not-found notice exactly when the search matched nothing |
| UserHandlers.MatchList | bot/handlers/user_handlers.py:196-201 | the loop builds exactly the reply text and the (id, question) pairs |
| UserHandlers.OperatorChatOfKey | bot/handlers/user_handlers.py:216 | a ticket taken by operator x is forwarded to x's chat; one without operator is forwarded nowhere |
| UserHandlers.OperatorChat | bot/handlers/user_handlers.py:216 | `int(active_ticket.operator_id)`: no chat for a ticket without operator; otherwise the chat is what `int()` reads from the column |
| UserHandlers.HandleTextDuringStates | bot/handlers/user_handlers.py:138-228 | for a text that does not start with "/", the branch is `RouteText`; a new ticket appends exactly one open ticket with the stripped text and the session's company, notifies the reachable active operators, deletes the session and acknowledges; search uses the stripped text and changes nothing; forwarding sends the raw text to the ticket's operator; the fallback sends the menu |
| UserHandlers.NoticeRecipients | bot/handlers/user_handlers.py:159-177 | the new-ticket notice reaches x exactly when x is an active operator of the company and reachable |
| UserHandlers.DispatchMenu | bot/handlers/user_handlers.py:39-122 | each of the three main-menu buttons reaches its own `F.text ==` handler, never the state handler |
| UserHandlers.StateTextExactly | bot/handlers/user_handlers.py:26-139 | a text reaches `handle_text_during_states` exactly when it does not start with "/" and is not a main-menu button |
| OperatorHandlers.Fsm.Current | bot/handlers/operator_handlers.py:229-230 | `data.get("current_ticket")`: the binding exactly when there is one |
| OperatorHandlers.Fsm.Bind | bot/handlers/operator_handlers.py:201-202 | binds the operator to the ticket, other bindings kept |
| OperatorHandlers.Fsm.Clear | bot/handlers/operator_handlers.py:232 | removes the operator's binding alone |
| OperatorHandlers.AssignTable | bot/handlers/operator_handlers.py:193-202 | taking an open ticket keeps the lifecycle invariant, moves forward and skips no step |
| OperatorHandlers.AssignBindings | bot/handlers/operator_handlers.py:200-202 | binding the taker to the taken ticket keeps every binding sound |
| OperatorHandlers.CloseTable | bot/handlers/operator_handlers.py:222-227 | closing a ticket that has an operator keeps the lifecycle invariant, moves forward and skips no step |
| OperatorHandlers.CloseBindings | bot/handlers/operator_handlers.py:229-235 | clearing the closer's binding when it pointed at the closed ticket keeps every binding sound |
| OperatorHandlers.SelectKeeps | bot/handlers/operator_handlers.py:154-164 | binding an operator to a ticket they hold keeps every binding sound |
| OperatorHandlers.CreateKeeps | bot/handlers/user_handlers.py:150-156 | a new open ticket without operator keeps the invariants and every binding |
| OperatorHandlers.Previews | bot/handlers/operator_handlers.py:50 | `[(t.id, t.question_text) for t in tickets]`, in order |
| OperatorHandlers.OpenScreenShowsOpen | bot/handlers/operator_handlers.py:44-59 | the open-ticket screen lists a ticket exactly when it is open and of the company; it says "no new tickets" exactly when there is none |
| OperatorHandlers.MyScreenShowsHeld | bot/handlers/operator_handlers.py:62-77 | the own-ticket screen lists a ticket exactly when the operator holds it in_progress; it says "none" exactly when there is none |
| OperatorHandlers.ListedExactly | bot/keyboards.py:59-94 | a list keyboard over the rows satisfying p has a row for a ticket exactly when the ticket satisfies p |
| OperatorHandlers.ShownIds | bot/keyboards.py:59-94 | row i of a list screen carries the id of the i-th listed ticket |
| OperatorHandlers.ShowOpenTickets | bot/handlers/operator_handlers.py:35-59 | replies with the open-ticket screen of the company's open tickets |
| OperatorHandlers.ShowMyTickets | bot/handlers/operator_handlers.py:62-82 | replies with the own-ticket screen of the operator's tickets |
| OperatorHandlers.RefreshOpenTickets | bot/handlers/operator_handlers.py:248-290 | `tickets:refresh` and `back_to_open` redraw the open-ticket screen in place |
| OperatorHandlers.BackToMyTickets | bot/handlers/operator_handlers.py:295-315 | `back_to_my` redraws the own-ticket screen in place |
| OperatorHandlers.ActionsScreen | bot/handlers/operator_handlers.py:87-116 | the actions of the pressed ticket are shown; nothing exactly when the data has no numeric id (the handler raises) |
| OperatorHandlers.RowOpensActions | bot/handlers/operator_handlers.py:87-116 | a row of the open list opens its ticket's actions with a back button to the open list; a row of the own list, with one to that list |
| OperatorHandlers.PromptSelectTicket | bot/handlers/operator_handlers.py:120-135 | no own tickets: a notice; otherwise the switch keyboard of exactly those tickets |
| OperatorHandlers.HandleSelectTicket | bot/handlers/operator_handlers.py:138-166 | back leaves the list; an id binds only when it is among the operator's in_progress tickets of the company; otherwise the binding is unchanged; sound bindings stay sound |
| OperatorHandlers.ToCustomerOfKey | bot/handlers/operator_handlers.py:213-216 | a ticket opened by customer x is answered in x's chat |
| OperatorHandlers.ToCustomer | bot/handlers/operator_handlers.py:213-216 | `send_message(chat_id=int(ticket.user_id))`: nothing exactly when `int()` fails; otherwise one send of the message to the chat `int()` reads |
| OperatorHandlers.HandleTicketAction | bot/handlers/operator_handlers.py:178-245 | a missing or foreign ticket is refused unchanged; assign takes only an open ticket, sets operator and in_progress, and binds the taker; close is for the ticket's operator alone, whatever the status, and clears the binding exactly when it pointed there; other verbs do nothing; the invariants are kept |
| OperatorHandlers.TakeTicket | bot/handlers/operator_handlers.py:193-218 | a ticket that is not open is refused with nothing changed; otherwise the assignment, the binding and the three messages |
| OperatorHandlers.CloseHeldTicket | bot/handlers/operator_handlers.py:220-242 | a non-owner is refused with nothing changed; otherwise the ticket is closed, the binding is cleared exactly when it was this ticket, and the customer is told; the table only moves forward |
| OperatorHandlers.ForwardOperatorText | bot/handlers/operator_handlers.py:319-342 | for a text that does not start with "/": no binding (or 0): a prompt; a binding to a missing ticket: cleared; otherwise the text goes to the ticket's customer, who under sound bindings is the customer of a ticket the operator holds |
| OperatorHandlers.DispatchOpen | bot/handlers/operator_handlers.py:87 | `open_ticket:<id>` reaches the open-ticket handler |
| OperatorHandlers.DispatchMy | bot/handlers/operator_handlers.py:104 | `my_ticket:<id>` reaches the own-ticket handler |
| OperatorHandlers.DispatchSelect | bot/handlers/operator_handlers.py:138 | `select:<id>` reaches the select handler |
| OperatorHandlers.DispatchAssign | bot/handlers/operator_handlers.py:169-178 | the accept button reaches the action handler, not the earlier `ticket:` handler |
| OperatorHandlers.DispatchClose | bot/handlers/operator_handlers.py:169-178 | the close button reaches the action handler, not the earlier `ticket:` handler |
| OperatorHandlers.DispatchFixed | bot/handlers/operator_handlers.py:248-295 | `select:back`, `tickets:refresh`, `tickets:back`, `back_to_open` and `back_to_my` each reach their own handler |
| OperatorHandlers.Dispatch | bot/handlers/operator_handlers.py:87-296 | the first callback handler whose filter accepts the data; any `ticket_action:` data reaches the action handler, and the earlier `ticket:` handler never sees it |
| OperatorHandlers.ActionNotShadowed | bot/handlers/operator_handlers.py:87-178 | `ticket_action:` data passes none of the `open_ticket:`, `my_ticket:`, `select:` and `ticket:` filters |
| OperatorHandlers.DispatchMenu | bot/handlers/operator_handlers.py:44-121 | each of the three operator-menu buttons reaches its own `F.text ==` handler, never the forwarding one |
| OperatorHandlers.ForwardedExactly | bot/handlers/operator_handlers.py:28-320 | a text is forwarded exactly when it does not start with "/" and is not an operator-menu button |
| AdminHandlers.ParseAddOperator | bot/handlers/admin_handlers.py:35-48 | accepted: a digit id and a name that starts with a non-space; refused: the usage text (fewer than three parts) or the bad-id text |
| AdminHandlers.AddOperatorRoundTrip | bot/handlers/admin_handlers.py:36-45 | a command, a digit id and any name give back the id and the whole name, inner and trailing spaces included |
| AdminHandlers.AddOperatorNeedsName | bot/handlers/admin_handlers.py:36-43 | without a name the command is refused with the usage text |
| AdminHandlers.ParseIdArgument | bot/handlers/admin_handlers.py:60-63 | accepted only as a digit string; anything else gets the usage text |
| AdminHandlers.IdArgumentRoundTrip | bot/handlers/admin_handlers.py:60-65 | the digit id after the command is read back exactly |
| AdminHandlers.IdArgumentRejectsTrailingSpace | bot/handlers/admin_handlers.py:101-102 | trailing whitespace after the id makes `isdigit` fail: refused |
| AdminHandlers.SplitQuestionAnswer | bot/handlers/admin_handlers.py:82-89 | no bar: that refusal, exactly; a bar: split at the first one, both sides stripped and non-empty, the question without a bar, or the empty-side refusal |
| AdminHandlers.QuestionAnswerRoundTrip | bot/handlers/admin_handlers.py:86-89 | a trimmed question, a bar and a trimmed answer (which may hold bars) split back into both |
| AdminHandlers.EmptyQuestionRefused | bot/handlers/admin_handlers.py:87-88 | only whitespace before the bar is refused as an empty question |
| AdminHandlers.ParseAddFaq | bot/handlers/admin_handlers.py:80-89 | accepted: a non-empty trimmed question without a bar and a non-empty trimmed answer; refused with the usage or empty-side text |
| AdminHandlers.AddFaqRoundTrip | bot/handlers/admin_handlers.py:80-89 | `/add_faq` with whitespace anywhere around the question, bar and answer gives back both |
| AdminHandlers.ParseEditFaq | bot/handlers/admin_handlers.py:115-138 | accepted: trimmed non-empty question and answer; refused with one of the four texts |
| AdminHandlers.ParseEditArgs | bot/handlers/admin_handlers.py:123-138 | the arguments must split into an integer and a remainder, which must hold a well-formed question and answer |
| AdminHandlers.EditArgsRoundTrip | bot/handlers/admin_handlers.py:123-138 | an id, whitespace, a question, a bar and an answer give back all three |
| AdminHandlers.EditFaqRoundTrip | bot/handlers/admin_handlers.py:115-138 | a whole `/edit_faq` line, whitespace anywhere between its fields, gives back id, question and answer |
| AdminHandlers.OperatorWithId | bot/handlers/admin_handlers.py:69 | an operator of the list with exactly that stored id, or None when there is none |
| AdminHandlers.AddOperatorCmd | bot/handlers/admin_handlers.py:22-53 | a non-admin is refused with nothing changed; a refused parse changes nothing; otherwise the operator is registered (reactivated or added) and confirmed |
| AdminHandlers.RemoveOperatorCmd | bot/handlers/admin_handlers.py:56-74 | the active operator of company 1 with that stored id is deactivated, after which no row with that id is active; with none, not-found and nothing changed |
| AdminHandlers.DeactivatedRow | bot/handlers/admin_handlers.py:69-73 | deactivating the one row with a stored id leaves no active row with it |
| AdminHandlers.AddFaqCmd | bot/handlers/admin_handlers.py:77-94 | one entry of company 1 with the parsed question and answer is appended and announced with its new id; refusals change nothing |
| AdminHandlers.DelFaqCmd | bot/handlers/admin_handlers.py:97-109 | the entry with that id, of any company, is gone and every other entry stays; confirmed whether or not it existed |
| AdminHandlers.EditFaqCmd | bot/handlers/admin_handlers.py:112-142 | the entry with that id is rewritten; with none, nothing changes and the confirmation is still sent |
| AdminHandlers.ListingLines | bot/handlers/admin_handlers.py:157-158 | one "id. question" line per entry, in order |
| AdminHandlers.ListingTextLines | bot/handlers/admin_handlers.py:156-158 | the listing reads back line by line as the heading, one line per entry in order, and an empty tail |
| AdminHandlers.ListingText | bot/handlers/admin_handlers.py:156-158 | the listing starts with the heading line; `ListingTextLines` reads the rest back line by line |
| AdminHandlers.ListingLineId | bot/handlers/admin_handlers.py:158 | the text before a listed line's first '.' reads back as the entry's id |
| AdminHandlers.ListFaqCmd | bot/handlers/admin_handlers.py:145-159 | a non-admin is refused; no entries: the empty-FAQ reply; otherwise the full listing |
| AdminHandlers.ListingBody | bot/handlers/admin_handlers.py:157-158 | the `text +=` loop builds exactly the lines of `ListingLines` |

## Left out

- Telegram transport is not modelled. Sends, edits, `callback.answer()` and markup objects become `Outgoing` values. The fixed wording of the replies is not modelled except where a text is built in a loop.
- The fixed screens are replies with no logic: `/start`, "about the company" and `/start_operator`. The two static menus are constants only.
- An exception ends its handler. The model keeps what the handler already wrote and sends nothing more. Two cases are not modelled: the exception propagating to the dispatcher, and half-finished database sessions.
- A failed send to an operator is the parameter `unreachable`. The notification loop catches it and skips that operator. Other send failures are not modelled.
- Matching a command at the start of a line inside the chat library is not modelled. This covers `Command("...")` and mentions such as `/cmd@bot`. The admin handlers read the whole text.
- The database's `ilike` case folding is the parameter `fold`. The wildcard meaning of `%` and `_` inside a keyword is not modelled.
- `isdigit` and `int()` are modelled over ASCII digits. Other Unicode digits and `int()`'s underscores are not.
- Query results are in table (id) order. SQL does not promise an order.
- Timestamps, relationships and cascades are not modelled. `get_or_create_company` is not part of this model: no handler calls it.
- Each handler is one atomic step. Concurrent updates are not modelled. The source reads a ticket and writes it back later, so two operators can race to take the same ticket.
- The operator FSM state `chatting` is folded into the binding. It is set and cleared together with `current_ticket`, and no handler reads it.
- Three handlers are not modelled, because no keyboard emits their data or they are shadowed:
  - the `ticket:` callback handler; it calls `ticket_actions_keyboard` without the required `origin` argument. The dispatch lemmas prove it never sees the action buttons;
  - `test_kb`;
  - the debug `catch_all`. It only logs. `UserHandlers.DispatchMessage` names it as the handler a customer's unmatched "/" text reaches.
- `notify_operators` in bot/utils.py is not part of this model: it is never called.
- Debug logging is not modelled.
- Message dispatch is modelled as the functions `UserHandlers.DispatchMessage` and `OperatorHandlers.DispatchMessage`. They route a text to a command handler, a menu button or the free-text handler, and the lemmas beside them state that choice. No method composes a dispatch with the handler it picks. The free-text handlers `UserHandlers.HandleTextDuringStates` and `OperatorHandlers.ForwardOperatorText` require a text that does not start with "/". Menu-button texts reach their own handlers and are not excluded by that requirement. Exact button texts: customer "📚 FAQ", "👨‍💻 Связаться с оператором" and "ℹ️ О компании"; operator "📋 Открытые тикеты", "📂 Мои тикеты" and "🔄 Переключить тикет".
- The `admin_only` guard is modelled inside each admin command. The admin router's own `IsAdmin` filter makes the guard redundant in the running bot.
- Crud.Store.AddOperator: requires the Telegram id to be a digit string. The only caller, `/add_operator`, checks this. The filters later apply `int()` to every stored id. A non-numeric stored id is not modelled.
- OperatorHandlers.HandleTicketAction: promises `Advanced` and `NoSkip` only for a ticket table that already satisfies `Lifecycle`. That table is one every handler keeps; on an arbitrary table an open ticket might carry an operator.
- OperatorHandlers.TakeTicket: promises `Advanced` and `NoSkip` only under `Lifecycle`, for the same reason.
- OperatorHandlers.CloseHeldTicket: promises `NoSkip` only under `Lifecycle`, for the same reason.
- Text comparison in `/remove_operator`: as in the source, stored ids are compared as text. So `/remove_operator 7` does not find a row stored as "007", although `IsOperator` reads that row as 7.
