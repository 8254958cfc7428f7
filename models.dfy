/**
  The rows of the bot's database (tickets, operators, FAQ entries, customer
  sessions) as Dafny values, with the constants the handlers hard-code.
*/
module Models {
  import opened Wrappers
  import opened Text

  /** A ticket's status column: "open" (the default), "in_progress", "closed". */
  datatype Status = Open | InProgress | Closed

  /**
    A customer inquiry. `userId` and `operatorId` hold Telegram ids as
    decimal strings; `operatorId` stays None until an operator takes it.
  */
  datatype Ticket = Ticket(
    id: nat,
    companyId: int,
    userId: string,
    operatorId: Option<string>,
    questionText: string,
    status: Status)

  /** A support agent; `telegramId` is unique over all rows, active or not. */
  datatype Operator = Operator(
    id: nat,
    companyId: int,
    telegramId: string,
    fullName: string,
    isActive: bool)

  /** A knowledge-base item; question and answer are required. */
  datatype FaqEntry = FaqEntry(id: nat, companyId: int, question: string, answer: string)

  /**
    A customer's conversation state, keyed by `userId`. `state` and `data`
    are nullable columns; the handlers only ever write the two states below.
  */
  datatype UserSession = UserSession(
    userId: string,
    companyId: int,
    state: Option<string>,
    data: Option<string>)

  const BrowsingFaq: string := "browsing_faq"
  const AwaitingTicketText: string := "awaiting_ticket_text"

  /** The company every handler works for (the source hard-codes `company_id = 1`). */
  const Company: int := 1

  /** `str(from_user.id)`: how a Telegram id is stored in a string column. */
  function Key(actor: nat): (k: string)
    ensures IsDigits(k)
  {
    ShowNat(actor)
  }

  /** `int(str(actor)) == actor`: a stored id reads back as the actor's id. */
  lemma KeyParses(actor: nat)
    ensures ParseInt(Key(actor)) == Some(actor as int)
  {
    ParseShowNat(actor);
  }

  lemma KeyInjective(a: nat, b: nat)
    requires Key(a) == Key(b)
    ensures a == b
  {
    ShowNatInjective(a, b);
  }

  /** Position of a status along open -> in_progress -> closed. */
  function Rank(s: Status): (r: nat)
    ensures r <= 2
    ensures (r == 0 <==> s == Open) && (r == 2 <==> s == Closed)
  {
    match s
    case Open => 0
    case InProgress => 1
    case Closed => 2
  }

  /**
    The lifecycle invariant every reachable ticket table keeps: a ticket
    has an operator exactly when it is no longer open.
  */
  ghost predicate Lifecycle(ts: seq<Ticket>) {
    forall i :: 0 <= i < |ts| ==> (ts[i].status == Open <==> ts[i].operatorId == None)
  }

  /**
    `after` is a later state of the ticket table `before`: tickets are only
    added; each old ticket keeps its id, company, customer and text; its
    status never moves backwards along open -> in_progress -> closed; and
    once it has an operator that operator never changes.
  */
  ghost predicate Advanced(before: seq<Ticket>, after: seq<Ticket>) {
    && |before| <= |after|
    && forall i :: 0 <= i < |before| ==>
         && after[i].id == before[i].id
         && after[i].companyId == before[i].companyId
         && after[i].userId == before[i].userId
         && after[i].questionText == before[i].questionText
         && Rank(before[i].status) <= Rank(after[i].status)
         && (before[i].operatorId.Some? ==> after[i].operatorId == before[i].operatorId)
  }

  /** One step never takes a ticket from open straight to closed. */
  ghost predicate NoSkip(before: seq<Ticket>, after: seq<Ticket>) {
    forall i :: 0 <= i < |before| && i < |after| ==>
      !(before[i].status == Open && after[i].status == Closed)
  }
}
