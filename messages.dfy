/**
  What the handlers say to Telegram. Each reply the source sends is one
  constructor, carrying the values it interpolates and the keyboard it
  attaches; the exact wording of fixed texts is not modelled, except for
  the two texts assembled line by line in a loop (the keyword-search
  result and `/list_faq`), which are given in full.
*/
module Messages {
  import opened Keyboards

  datatype Msg =
    // customer side (bot/handlers/user_handlers.py)
    | NoFaqYet
    | ChooseQuestion(kb: Keyboard)
    | BackToMainMenu(menu: ReplyKeyboard)
    | FaqAnswer(answer: string, menu: ReplyKeyboard)
    | FaqNotFound(menu: ReplyKeyboard)
    | DescribeProblem
    | NewTicketNotice(ticketId: int, text: string, kb: Keyboard)
    | TicketRegistered(menu: ReplyKeyboard)
    | FoundQuestions(text: string, kb: Keyboard)
    | NothingFound
    | ClientSays(ticketId: int, text: string)
    | NotRecognized(menu: ReplyKeyboard)
    // operator side (bot/handlers/operator_handlers.py)
    | NoNewTickets
    | OpenTicketsList(kb: Keyboard)
    | NoActiveTickets
    | MyTicketsList(kb: Keyboard)
    | ChooseAction(ticketId: int, kb: Keyboard)
    | NoTicketsToSwitch
    | SwitchList(kb: Keyboard)
    | BackToOperatorMenu
    | OperatorMenuShown(menu: ReplyKeyboard)
    | NoSuchActiveTicket
    | Switched(ticketId: int)
    | TicketNotFoundOrForeign
    | AlreadyTaken
    | Accepted(ticketId: int)
    | ClientQuestion(text: string)
    | TakenNotice(ticketId: int)
    | NotAssignee
    | ClosedAndUnbound(ticketId: int)
    | ClosedStillBound(ticketId: int)
    | ClosedNotice(ticketId: int)
    | NoCurrentTicket
    | CurrentTicketMissing
    | OperatorSays(text: string)
    // admin side (bot/handlers/admin_handlers.py)
    | NotAllowed
    | AddOperatorUsage
    | BadTelegramId
    | OperatorAdded(name: string, telegramId: string)
    | RemoveOperatorUsage
    | OperatorNotFound
    | OperatorRemoved(telegramId: string)
    | AddFaqUsage
    | EmptyQuestionOrAnswer
    | FaqAdded(faqId: int)
    | DelFaqUsage
    | FaqDeleted(faqId: int)
    | EditFaqUsage
    | EditFaqBadId
    | EditFaqNoBar
    | FaqUpdated(faqId: int)
    | FaqEmpty
    | FaqListing(text: string)

  /**
    One call into the Bot API: `message.answer` (a reply in the chat the
    update came from), `bot.send_message` to another chat, or `edit_text`
    of the message whose button was pressed.
  */
  datatype Outgoing = Reply(msg: Msg) | Send(chat: int, msg: Msg) | Edit(msg: Msg)
}
