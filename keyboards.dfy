/**
  bot/keyboards.py: the inline keyboards the bot attaches to its replies,
  the callback-data strings their buttons carry, and the way the handlers
  read those strings back (`data.split(":")` and `int(...)`).
*/
module Keyboards {
  import opened Wrappers
  import opened Text

  /** An inline button: its label and the callback data it sends back. */
  datatype Button = Button(text: string, data: string)

  /** `inline_keyboard`: rows of buttons, top to bottom. */
  type Keyboard = seq<seq<Button>>

  /** A reply keyboard: rows of button labels. */
  type ReplyKeyboard = seq<seq<string>>

  /** `main_menu_keyboard`. */
  const MainMenu: ReplyKeyboard := [["📚 FAQ"], ["👨‍💻 Связаться с оператором"], ["ℹ️ О компании"]]

  /** `operator_main_menu`. */
  const OperatorMenu: ReplyKeyboard := [["📋 Открытые тикеты"], ["📂 Мои тикеты"], ["🔄 Переключить тикет"]]

  const BackLabel: string := "🔙 Назад"

  const FaqBack: string := "faq:back"
  const TicketsRefresh: string := "tickets:refresh"
  const TicketsBack: string := "tickets:back"
  const BackToOpen: string := "back_to_open"
  const BackToMy: string := "back_to_my"
  const SelectBack: string := "select:back"

  // ---------------------------------------------------------------------
  // Callback data, written and read back
  // ---------------------------------------------------------------------

  /** `f"{prefix}:{id}"`. */
  function Tagged(prefix: string, id: int): string {
    prefix + [':'] + ShowInt(id)
  }

  function FaqData(id: int): string { Tagged("faq", id) }
  function OpenTicketData(id: int): string { Tagged("open_ticket", id) }
  function MyTicketData(id: int): string { Tagged("my_ticket", id) }
  function SelectData(id: int): string { Tagged("select", id) }
  function AssignData(id: int): string { Tagged("ticket_action:assign", id) }
  function CloseData(id: int): string { Tagged("ticket_action:close", id) }

  /**
    `int(data.split(":")[k])`: None where Python raises, either because
    there is no field `k` (IndexError) or because it is not a number
    (ValueError).
  */
  function Field(data: string, k: nat): (r: Option<int>)
    ensures k >= |Split(data, ':')| ==> r.None?
    ensures r.Some? ==> ParseInt(Split(data, ':')[k]) == r
  {
    var parts := Split(data, ':');
    if k < |parts| then ParseInt(parts[k]) else None
  }

  /** A tag without ':' and a number split into exactly those two fields. */
  lemma SplitTagged(prefix: string, id: int)
    requires ':' !in prefix
    ensures Split(Tagged(prefix, id), ':') == [prefix, ShowInt(id)]
  {
    assert ':' !in ShowInt(id);
    SplitPair(prefix, ShowInt(id), ':');
  }

  /** The id a one-tag button carries is exactly the one it was built with. */
  lemma TaggedField(prefix: string, id: int)
    requires ':' !in prefix
    ensures Field(Tagged(prefix, id), 1) == Some(id)
  {
    SplitTagged(prefix, id);
    ParseShowInt(id);
  }

  /** `ticket_action:<action>:<id>` splits into its three fields. */
  lemma SplitAction(action: string, id: int)
    requires ':' !in action
    ensures Split(Tagged("ticket_action:" + action, id), ':') == ["ticket_action", action, ShowInt(id)]
  {
    var n := ShowInt(id);
    var tail := action + [':'] + n;
    assert ':' !in n;
    SplitPair(action, n, ':');
    assert "ticket_action:" == "ticket_action" + [':'];
    assert Tagged("ticket_action:" + action, id) == "ticket_action" + [':'] + tail;
    SplitCons("ticket_action", tail, ':');
  }

  /** What the `faq:` and `select:` handlers make of their data: back, or an id. */
  datatype Choice = Back | Pick(id: int) | Malformed

  /**
    `action = data.split(":")[1]`; "back" is the back button, anything else
    goes through `int(action)`.
  */
  function DecodeChoice(data: string): (r: Choice)
    ensures r.Back? <==> |Split(data, ':')| >= 2 && Split(data, ':')[1] == "back"
    ensures r.Pick? ==> |Split(data, ':')| >= 2 && ParseInt(Split(data, ':')[1]) == Some(r.id)
  {
    var parts := Split(data, ':');
    if |parts| < 2 then Malformed
    else if parts[1] == "back" then Back
    else match ParseInt(parts[1])
      case None => Malformed
      case Some(id) => Pick(id)
  }

  /** A `ticket_action:` press: the action word and `int(parts[2])`. */
  datatype Action = Action(verb: string, id: int)

  function DecodeAction(data: string): (r: Option<Action>)
    ensures r.Some? ==> |Split(data, ':')| >= 3 && r.value.verb == Split(data, ':')[1]
                        && ParseInt(Split(data, ':')[2]) == Some(r.value.id)
    ensures |Split(data, ':')| < 3 ==> r.None?
  {
    var parts := Split(data, ':');
    if |parts| < 3 then None
    else match ParseInt(parts[2])
      case None => None
      case Some(id) => Some(Action(parts[1], id))
  }

  lemma DecodeFaqData(id: int)
    ensures DecodeChoice(FaqData(id)) == Pick(id)
  {
    SplitTagged("faq", id);
    ParseShowInt(id);
    assert ShowInt(id) != "back" by { assert ShowInt(id)[0] != 'b'; }
  }

  lemma DecodeSelectData(id: int)
    ensures DecodeChoice(SelectData(id)) == Pick(id)
  {
    SplitTagged("select", id);
    ParseShowInt(id);
    assert ShowInt(id) != "back" by { assert ShowInt(id)[0] != 'b'; }
  }

  lemma DecodeBacks()
    ensures DecodeChoice(FaqBack) == Back
    ensures DecodeChoice(SelectBack) == Back
  {
    assert FaqBack == "faq" + [':'] + "back";
    SplitPair("faq", "back", ':');
    assert SelectBack == "select" + [':'] + "back";
    SplitPair("select", "back", ':');
  }

  lemma DecodeAssignData(id: int)
    ensures DecodeAction(AssignData(id)) == Some(Action("assign", id))
  {
    assert "ticket_action:" + "assign" == "ticket_action:assign";
    SplitAction("assign", id);
    ParseShowInt(id);
  }

  lemma DecodeCloseData(id: int)
    ensures DecodeAction(CloseData(id)) == Some(Action("close", id))
  {
    assert "ticket_action:" + "close" == "ticket_action:close";
    SplitAction("close", id);
    ParseShowInt(id);
  }

  // ---------------------------------------------------------------------
  // Button labels
  // ---------------------------------------------------------------------

  /** `f"Тикет #{ticket_id}: {preview[:30]}…"`. */
  function TicketLabel(id: int, preview: string): string {
    "Тикет #" + ShowInt(id) + ": " + Take(preview, 30) + "…"
  }

  /** `f"Выбрать #{ticket_id}: {preview[:30]}..."`. */
  function SelectLabel(id: int, preview: string): string {
    "Выбрать #" + ShowInt(id) + ": " + Take(preview, 30) + "..."
  }

  // ---------------------------------------------------------------------
  // The list keyboards (a `for` loop appending rows, then a trailer)
  // ---------------------------------------------------------------------

  /** One row per item, in order. */
  function Rows<T>(xs: seq<T>, row: T -> seq<Button>): (kb: Keyboard)
    ensures |kb| == |xs|
    ensures forall i :: 0 <= i < |xs| ==> kb[i] == row(xs[i])
  {
    seq(|xs|, i requires 0 <= i < |xs| => row(xs[i]))
  }

  lemma RowsSnoc<T>(xs: seq<T>, i: nat, row: T -> seq<Button>)
    requires i < |xs|
    ensures Rows(xs[..i + 1], row) == Rows(xs[..i], row) + [row(xs[i])]
  {
    assert xs[..i + 1][i] == xs[i];
  }

  function FaqRow(e: (nat, string)): seq<Button> { [Button(e.1, FaqData(e.0))] }
  function OpenRow(t: (nat, string)): seq<Button> { [Button(TicketLabel(t.0, t.1), OpenTicketData(t.0))] }
  function MyRow(t: (nat, string)): seq<Button> { [Button(TicketLabel(t.0, t.1), MyTicketData(t.0))] }
  function SelectRow(t: (nat, string)): seq<Button> { [Button(SelectLabel(t.0, t.1), SelectData(t.0))] }

  /** The layout `faq_list_keyboard` builds. */
  function FaqList(entries: seq<(nat, string)>): (kb: Keyboard)
    ensures |kb| == |entries| + 1 && kb[|entries|] == [Button(BackLabel, FaqBack)]
    ensures forall i :: 0 <= i < |entries| ==> kb[i] == FaqRow(entries[i])
  {
    Rows(entries, FaqRow) + [[Button(BackLabel, FaqBack)]]
  }

  /** The layout `operator_tickets_keyboard` builds. */
  function OpenList(tickets: seq<(nat, string)>): (kb: Keyboard)
    ensures |kb| == |tickets| + 1
    ensures kb[|tickets|] == [Button("🔄 Обновить", TicketsRefresh), Button(BackLabel, TicketsBack)]
    ensures forall i :: 0 <= i < |tickets| ==> kb[i] == OpenRow(tickets[i])
  {
    Rows(tickets, OpenRow) + [[Button("🔄 Обновить", TicketsRefresh), Button(BackLabel, TicketsBack)]]
  }

  /** The layout `operator_my_tickets_keyboard` builds. */
  function MyList(tickets: seq<(nat, string)>): (kb: Keyboard)
    ensures |kb| == |tickets| + 1 && kb[|tickets|] == [Button(BackLabel, TicketsBack)]
    ensures forall i :: 0 <= i < |tickets| ==> kb[i] == MyRow(tickets[i])
  {
    Rows(tickets, MyRow) + [[Button(BackLabel, TicketsBack)]]
  }

  /** The layout `select_ticket_keyboard` builds. */
  function SelectList(tickets: seq<(nat, string)>): (kb: Keyboard)
    ensures |kb| == |tickets| + 1 && kb[|tickets|] == [Button(BackLabel, SelectBack)]
    ensures forall i :: 0 <= i < |tickets| ==> kb[i] == SelectRow(tickets[i])
  {
    Rows(tickets, SelectRow) + [[Button(BackLabel, SelectBack)]]
  }

  /** `faq_list_keyboard`. */
  method FaqListKeyboard(entries: seq<(nat, string)>) returns (kb: Keyboard)
    ensures kb == FaqList(entries)
  {
    var rows: Keyboard := [];
    var i := 0;
    while i < |entries|
      invariant 0 <= i <= |entries|
      invariant rows == Rows(entries[..i], FaqRow)
    {
      RowsSnoc(entries, i, FaqRow);
      rows := rows + [FaqRow(entries[i])];
      i := i + 1;
    }
    assert entries[..i] == entries;
    kb := rows + [[Button(BackLabel, FaqBack)]];
  }

  /** `operator_tickets_keyboard`. */
  method OperatorTicketsKeyboard(tickets: seq<(nat, string)>) returns (kb: Keyboard)
    ensures kb == OpenList(tickets)
  {
    var rows: Keyboard := [];
    var i := 0;
    while i < |tickets|
      invariant 0 <= i <= |tickets|
      invariant rows == Rows(tickets[..i], OpenRow)
    {
      RowsSnoc(tickets, i, OpenRow);
      rows := rows + [OpenRow(tickets[i])];
      i := i + 1;
    }
    assert tickets[..i] == tickets;
    kb := rows + [[Button("🔄 Обновить", TicketsRefresh), Button(BackLabel, TicketsBack)]];
  }

  /** `operator_my_tickets_keyboard`. */
  method OperatorMyTicketsKeyboard(tickets: seq<(nat, string)>) returns (kb: Keyboard)
    ensures kb == MyList(tickets)
  {
    var rows: Keyboard := [];
    var i := 0;
    while i < |tickets|
      invariant 0 <= i <= |tickets|
      invariant rows == Rows(tickets[..i], MyRow)
    {
      RowsSnoc(tickets, i, MyRow);
      rows := rows + [MyRow(tickets[i])];
      i := i + 1;
    }
    assert tickets[..i] == tickets;
    kb := rows + [[Button(BackLabel, TicketsBack)]];
  }

  /** `select_ticket_keyboard`. */
  method SelectTicketKeyboard(tickets: seq<(nat, string)>) returns (kb: Keyboard)
    ensures kb == SelectList(tickets)
  {
    var rows: Keyboard := [];
    var i := 0;
    while i < |tickets|
      invariant 0 <= i <= |tickets|
      invariant rows == Rows(tickets[..i], SelectRow)
    {
      RowsSnoc(tickets, i, SelectRow);
      rows := rows + [SelectRow(tickets[i])];
      i := i + 1;
    }
    assert tickets[..i] == tickets;
    kb := rows + [[Button(BackLabel, SelectBack)]];
  }

  /**
    The FAQ list has one row per entry, in order, showing its question,
    whose data the `faq:` handler reads back as that entry's id; the last
    row is the single back button.
  */
  lemma FaqListRoundTrip(entries: seq<(nat, string)>)
    ensures var kb := FaqList(entries);
      && |kb| == |entries| + 1
      && (forall i :: 0 <= i < |entries| ==>
            |kb[i]| == 1 && kb[i][0].text == entries[i].1
            && DecodeChoice(kb[i][0].data) == Pick(entries[i].0 as int))
      && kb[|entries|] == [Button(BackLabel, FaqBack)]
      && DecodeChoice(kb[|entries|][0].data) == Back
  {
    var kb: Keyboard := FaqList(entries);
    forall i | 0 <= i < |entries|
      ensures DecodeChoice(kb[i][0].data) == Pick(entries[i].0 as int)
    {
      DecodeFaqData(entries[i].0);
    }
    DecodeBacks();
  }

  /**
    The open-ticket list: one row per ticket whose label shows the id and at
    most the first 30 characters of the text and whose data reads back as
    the id; then refresh and back, side by side.
  */
  lemma OpenListRoundTrip(tickets: seq<(nat, string)>)
    ensures var kb := OpenList(tickets);
      && |kb| == |tickets| + 1
      && (forall i :: 0 <= i < |tickets| ==>
            |kb[i]| == 1 && kb[i][0].text == TicketLabel(tickets[i].0, tickets[i].1)
            && Field(kb[i][0].data, 1) == Some(tickets[i].0 as int))
      && kb[|tickets|] == [Button("🔄 Обновить", TicketsRefresh), Button(BackLabel, TicketsBack)]
  {
    var kb: Keyboard := OpenList(tickets);
    forall i | 0 <= i < |tickets|
      ensures Field(kb[i][0].data, 1) == Some(tickets[i].0 as int)
    {
      TaggedField("open_ticket", tickets[i].0);
    }
  }

  /** The operator's own list: the same rows with `my_ticket:`, then back. */
  lemma MyListRoundTrip(tickets: seq<(nat, string)>)
    ensures var kb := MyList(tickets);
      && |kb| == |tickets| + 1
      && (forall i :: 0 <= i < |tickets| ==>
            |kb[i]| == 1 && kb[i][0].text == TicketLabel(tickets[i].0, tickets[i].1)
            && Field(kb[i][0].data, 1) == Some(tickets[i].0 as int))
      && kb[|tickets|] == [Button(BackLabel, TicketsBack)]
  {
    var kb: Keyboard := MyList(tickets);
    forall i | 0 <= i < |tickets|
      ensures Field(kb[i][0].data, 1) == Some(tickets[i].0 as int)
    {
      TaggedField("my_ticket", tickets[i].0);
    }
  }

  /** The switch list: `select:<id>` rows the `select:` handler reads back, then back. */
  lemma SelectListRoundTrip(tickets: seq<(nat, string)>)
    ensures var kb := SelectList(tickets);
      && |kb| == |tickets| + 1
      && (forall i :: 0 <= i < |tickets| ==>
            |kb[i]| == 1 && kb[i][0].text == SelectLabel(tickets[i].0, tickets[i].1)
            && DecodeChoice(kb[i][0].data) == Pick(tickets[i].0 as int))
      && kb[|tickets|] == [Button(BackLabel, SelectBack)]
      && DecodeChoice(kb[|tickets|][0].data) == Back
  {
    var kb: Keyboard := SelectList(tickets);
    forall i | 0 <= i < |tickets|
      ensures DecodeChoice(kb[i][0].data) == Pick(tickets[i].0 as int)
    {
      DecodeSelectData(tickets[i].0);
    }
    DecodeBacks();
  }

  /**
    `ticket_actions_keyboard`: accept, close, and a back button whose data
    depends on where the operator came from.
  */
  function TicketActionsKeyboard(id: int, origin: string): (kb: Keyboard)
    ensures |kb| == 3 && |kb[0]| == 1 && |kb[1]| == 1 && |kb[2]| == 1
    ensures DecodeAction(kb[0][0].data) == Some(Action("assign", id))
    ensures DecodeAction(kb[1][0].data) == Some(Action("close", id))
    ensures kb[2][0].data == BackToOpen <==> origin == "open"
    ensures kb[2][0].data == BackToMy <==> origin != "open"
  {
    DecodeAssignData(id);
    DecodeCloseData(id);
    [ [Button("✅ Принять тикет", AssignData(id))],
      [Button("❌ Закрыть тикет", CloseData(id))],
      [Button(BackLabel, if origin == "open" then BackToOpen else BackToMy)] ]
  }
}
