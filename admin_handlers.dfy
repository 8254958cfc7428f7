/**
  bot/handlers/admin_handlers.py: the admin commands. Each command first
  passes the `admin_only` guard, then parses its text (a pure function
  below, returning the reply to refuse it with), then calls one CRUD
  operation of company 1 and confirms.
*/
module AdminHandlers {
  import opened Wrappers
  import opened Text
  import opened Models
  import opened Crud
  import opened Messages
  import opened Filters

  // ---------------------------------------------------------------------
  // Parsing the command texts
  // ---------------------------------------------------------------------

  /**
    `/add_operator <telegram_id> <name>`: `text.split(maxsplit=2)` must give
    three parts and the second must be a digit string; the name is all the
    rest of the line, inner and trailing whitespace included.
  */
  function ParseAddOperator(text: string): (r: Result<(string, string), Msg>)
    ensures r.Ok? ==> IsDigits(r.value.0) && r.value.1 != [] && !IsSpace(r.value.1[0])
    ensures r.Err? ==> r.error == AddOperatorUsage || r.error == BadTelegramId
  {
    var parts := SplitWs(text, 2);
    if |parts| < 3 then Err(AddOperatorUsage)
    else if !IsDigits(parts[1]) then Err(BadTelegramId)
    else Ok((parts[1], parts[2]))
  }

  /** A well-formed `/add_operator` line gives back its id and its name. */
  lemma AddOperatorRoundTrip(cmd: string, sp1: string, tg: string, sp2: string, name: string)
    requires cmd != [] && NoSpace(cmd)
    requires sp1 != [] && AllSpace(sp1) && sp2 != [] && AllSpace(sp2)
    requires IsDigits(tg)
    requires name != [] && !IsSpace(name[0])
    ensures ParseAddOperator(cmd + sp1 + (tg + sp2 + name)) == Ok((tg, name))
  {
    ShowDigitsNoSpace(tg);
    WordThenRest(tg, sp2, name);
    SplitWsWord(cmd, sp1, tg + sp2 + name, 2);
    AddOperatorParts(cmd + sp1 + (tg + sp2 + name), cmd, tg, name);
  }

  /** Three parts with a digit string in the middle are accepted. */
  lemma AddOperatorParts(text: string, cmd: string, tg: string, name: string)
    requires SplitWs(text, 2) == [cmd] + [tg, name] && IsDigits(tg)
    ensures ParseAddOperator(text) == Ok((tg, name))
  {
  }

  /** A digit string holds no whitespace. */
  lemma ShowDigitsNoSpace(s: string)
    requires AllDigits(s)
    ensures NoSpace(s)
  {
    forall k | 0 <= k < |s| ensures !IsSpace(s[k]) {
      assert IsDigit(s[k]);
    }
  }

  /** Without a name the command is refused with the usage text. */
  lemma AddOperatorNeedsName(cmd: string, sp: string, tg: string)
    requires cmd != [] && NoSpace(cmd) && sp != [] && AllSpace(sp)
    requires tg != [] && NoSpace(tg)
    ensures ParseAddOperator(cmd + sp + tg) == Err(AddOperatorUsage)
  {
    SplitWsWord(cmd, sp, tg, 2);
    LoneWord(tg, 1);
  }

  /** A single word splits into itself. */
  lemma LoneWord(w: string, maxsplit: nat)
    requires w != [] && NoSpace(w)
    ensures SplitWs(w, maxsplit) == [w]
  {
    if maxsplit == 0 {
      SplitWsLast(w);
    } else {
      SplitWsUnfold(w, maxsplit);
      WordLengthOfWord(w, []);
      assert w + [] == w;
      assert w[WordLength(w)..] == [];
    }
  }

  /**
    `/remove_operator <telegram_id>` and `/del_faq <id>`: `split(maxsplit=1)`
    must give exactly two parts and the second, the rest of the line with
    any trailing whitespace, must be a digit string.
  */
  function ParseIdArgument(text: string, usage: Msg): (r: Result<string, Msg>)
    ensures r.Ok? ==> IsDigits(r.value)
    ensures r.Err? ==> r.error == usage
  {
    var parts := SplitWs(text, 1);
    if |parts| != 2 || !IsDigits(parts[1]) then Err(usage)
    else Ok(parts[1])
  }

  /** The id after the command is read back exactly. */
  lemma IdArgumentRoundTrip(cmd: string, sp: string, id: string, usage: Msg)
    requires cmd != [] && NoSpace(cmd) && sp != [] && AllSpace(sp)
    requires IsDigits(id)
    ensures ParseIdArgument(cmd + sp + id, usage) == Ok(id)
  {
    assert id[0] in id;
    WordThenRest(cmd, sp, id);
    IdArgumentParts(cmd + sp + id, cmd, id, usage);
  }

  /** Two parts, the second a digit string, are accepted. */
  lemma IdArgumentParts(text: string, cmd: string, id: string, usage: Msg)
    requires SplitWs(text, 1) == [cmd, id] && IsDigits(id)
    ensures ParseIdArgument(text, usage) == Ok(id)
  {
  }

  /** Trailing whitespace after the id makes `isdigit` fail: the command is refused. */
  lemma IdArgumentRejectsTrailingSpace(cmd: string, sp: string, id: string, tail: string, usage: Msg)
    requires cmd != [] && NoSpace(cmd) && sp != [] && AllSpace(sp)
    requires IsDigits(id) && tail != [] && AllSpace(tail)
    ensures ParseIdArgument(cmd + sp + id + tail, usage) == Err(usage)
  {
    var arg := id + tail;
    assert cmd + sp + id + tail == cmd + sp + arg;
    assert arg[0] == id[0];
    WordThenRest(cmd, sp, arg);
    SpaceInside(id, tail);
  }

  /** A text with a whitespace inside is no digit string. */
  lemma SpaceInside(id: string, tail: string)
    requires tail != [] && AllSpace(tail)
    ensures !IsDigits(id + tail)
  {
    assert (id + tail)[|id|] == tail[0];
  }

  /**
    The question and answer of `/add_faq` and `/edit_faq`: without a '|'
    the text is refused with `noBar`; otherwise it is split at the first
    '|' and both sides are stripped, and neither may be empty.
  */
  function SplitQuestionAnswer(qa: string, noBar: Msg): (r: Result<(string, string), Msg>)
    ensures r.Ok? ==> '|' in qa
    ensures r.Ok? ==> var (q, a) := r.value;
      q != [] && a != [] && Trimmed(q) && Trimmed(a) && '|' !in q
    ensures r.Err? ==> (r.error == noBar && '|' !in qa) || (r.error == EmptyQuestionOrAnswer && '|' in qa)
  {
    match SplitFirst(qa, '|')
    case None => Err(noBar)
    case Some((q0, a0)) =>
      var q, a := Strip(q0), Strip(a0);
      StripSub(q0);
      if q == [] || a == [] then Err(EmptyQuestionOrAnswer)
      else Ok((q, a))
  }

  /** `strip` returns a piece of its argument. */
  lemma StripSub(s: string)
    ensures forall c :: c in Strip(s) ==> c in s
  {
    var i := LeadingSpaces(s);
    var t := s[i..];
    var j := TrailingSpaces(t);
    assert Strip(s) == t[..|t| - j];
    forall c | c in Strip(s) ensures c in s {
      var k :| 0 <= k < |Strip(s)| && Strip(s)[k] == c;
      assert s[i + k] == c;
    }
  }

  /** A bar between a trimmed question and its trimmed answer splits back into both. */
  lemma QuestionAnswerRoundTrip(q: string, sp1: string, sp2: string, a: string, noBar: Msg)
    requires q != [] && a != [] && Trimmed(q) && Trimmed(a) && '|' !in q
    requires AllSpace(sp1) && AllSpace(sp2)
    ensures SplitQuestionAnswer(q + sp1 + "|" + sp2 + a, noBar) == Ok((q, a))
  {
    var x := q + sp1 + "|" + sp2 + a;
    assert SplitFirst(x, '|') == Some((q + sp1, sp2 + a)) by {
      assert '|' !in sp1 by { assert !IsSpace('|'); }
      assert x == (q + sp1) + ['|'] + (sp2 + a);
      SplitFirstOf(q + sp1, sp2 + a, '|');
    }
    assert Strip(q + sp1) == q by {
      StripPadded([], q, sp1);
      assert [] + q + sp1 == q + sp1;
    }
    assert Strip(sp2 + a) == a by {
      StripPadded(sp2, a, []);
      assert sp2 + a + [] == sp2 + a;
    }
  }

  /** Nothing but whitespace before the bar: the empty question is refused. */
  lemma EmptyQuestionRefused(sp: string, rest: string, noBar: Msg)
    requires AllSpace(sp)
    ensures SplitQuestionAnswer(sp + "|" + rest, noBar) == Err(EmptyQuestionOrAnswer)
  {
    assert '|' !in sp by { assert !IsSpace('|'); }
    assert sp + "|" + rest == sp + ['|'] + rest;
    SplitFirstOf(sp, rest, '|');
  }

  /** The command word `/add_faq`, whose length the handler cuts off. */
  const AddFaqCommand: string := "/add_faq"

  /** `/add_faq Question? | Answer`: everything after the command word. */
  function ParseAddFaq(text: string): (r: Result<(string, string), Msg>)
    ensures r.Ok? ==> var (q, a) := r.value;
      q != [] && a != [] && Trimmed(q) && Trimmed(a) && '|' !in q
    ensures r.Err? ==> r.error == AddFaqUsage || r.error == EmptyQuestionOrAnswer
  {
    SplitQuestionAnswer(Strip(Drop(text, |AddFaqCommand|)), AddFaqUsage)
  }

  /** A well-formed `/add_faq` line gives back its question and answer. */
  lemma AddFaqRoundTrip(sp0: string, q: string, sp1: string, sp2: string, a: string, sp3: string)
    requires q != [] && a != [] && Trimmed(q) && Trimmed(a) && '|' !in q
    requires AllSpace(sp0) && AllSpace(sp1) && AllSpace(sp2) && AllSpace(sp3)
    ensures ParseAddFaq(AddFaqCommand + (sp0 + (q + sp1 + "|" + sp2 + a) + sp3)) == Ok((q, a))
  {
    var x := q + sp1 + "|" + sp2 + a;
    DropPrefix(AddFaqCommand, sp0 + x + sp3);
    StripAroundQuestion(sp0, q, sp1, sp2, a, sp3);
    AddFaqArgs(AddFaqCommand + (sp0 + x + sp3));
    QuestionAnswerRoundTrip(q, sp1, sp2, a, AddFaqUsage);
  }

  /** `/add_faq` looks only at the stripped text after the command word. */
  lemma AddFaqArgs(text: string)
    ensures ParseAddFaq(text) == SplitQuestionAnswer(Strip(Drop(text, |AddFaqCommand|)), AddFaqUsage)
  {
  }

  /** Whitespace around a question, bar and answer is stripped off. */
  lemma StripAroundQuestion(sp0: string, q: string, sp1: string, sp2: string, a: string, sp3: string)
    requires q != [] && a != [] && Trimmed(q) && Trimmed(a)
    requires AllSpace(sp0) && AllSpace(sp3)
    ensures Strip(sp0 + (q + sp1 + "|" + sp2 + a) + sp3) == q + sp1 + "|" + sp2 + a
  {
    var x := q + sp1 + "|" + sp2 + a;
    TrimmedBetween(q, sp1 + "|" + sp2, a);
    assert q + (sp1 + "|" + sp2) + a == x;
    StripPadded(sp0, x, sp3);
  }

  /** Cutting off a prefix by its length leaves the rest. */
  lemma DropPrefix(p: string, r: string)
    ensures Drop(p + r, |p|) == r
  {
    if r != [] {
      assert (p + r)[|p|..] == r;
    }
  }

  /**
    `/edit_faq <id> Question? | Answer`: the rest of the line after the
    command, stripped, is the argument text of `ParseEditArgs`.
  */
  function ParseEditFaq(text: string): (r: Result<(int, string, string), Msg>)
    ensures r.Ok? ==> var (_, q, a) := r.value;
      q != [] && a != [] && Trimmed(q) && Trimmed(a) && '|' !in q
    ensures r.Err? ==> r.error in {EditFaqUsage, EditFaqBadId, EditFaqNoBar, EmptyQuestionOrAnswer}
  {
    var parts := SplitWs(text, 1);
    if |parts| < 2 then Err(EditFaqUsage) else ParseEditArgs(Strip(parts[1]))
  }

  /**
    The arguments of `/edit_faq`: they must split into an id that `int()`
    accepts (a sign is allowed) and a remainder; a missing remainder counts
    as a bad id (the unpacking raises inside the same `try`).
  */
  function ParseEditArgs(rest: string): (r: Result<(int, string, string), Msg>)
    ensures r.Ok? ==> var (_, q, a) := r.value;
      q != [] && a != [] && Trimmed(q) && Trimmed(a) && '|' !in q
    ensures r.Err? ==> r.error in {EditFaqBadId, EditFaqNoBar, EmptyQuestionOrAnswer}
  {
    var fields := SplitWs(rest, 1);
    if |fields| != 2 then Err(EditFaqBadId)
    else match ParseInt(fields[0])
      case None => Err(EditFaqBadId)
      case Some(id) =>
        match SplitQuestionAnswer(fields[1], EditFaqNoBar)
        case Err(m) => Err(m)
        case Ok((q, a)) => Ok((id, q, a))
  }

  /** An id, whitespace, then a question and answer: all three come back. */
  lemma EditArgsRoundTrip(id: int, sp1: string, q: string, sp2: string, sp3: string, a: string)
    requires sp1 != [] && AllSpace(sp1) && AllSpace(sp2) && AllSpace(sp3)
    requires q != [] && a != [] && Trimmed(q) && Trimmed(a) && '|' !in q
    ensures ParseEditArgs(ShowInt(id) + sp1 + (q + sp2 + "|" + sp3 + a)) == Ok((id, q, a))
  {
    var x := q + sp2 + "|" + sp3 + a;
    assert x[0] == q[0];
    IdThenRest(id, sp1, x);
    ParseShowInt(id);
    QuestionAnswerRoundTrip(q, sp2, sp3, a, EditFaqNoBar);
    EditArgsParts(ShowInt(id) + sp1 + x, ShowInt(id), x, id, q, a);
  }

  /** An id `int()` accepts and a well-formed question and answer are accepted. */
  lemma EditArgsParts(rest: string, n: string, x: string, id: int, q: string, a: string)
    requires SplitWs(rest, 1) == [n, x] && ParseInt(n) == Some(id)
    requires SplitQuestionAnswer(x, EditFaqNoBar) == Ok((q, a))
    ensures ParseEditArgs(rest) == Ok((id, q, a))
  {
  }

  /** A numeral, whitespace and a remainder split into the numeral and the remainder. */
  lemma IdThenRest(id: int, sp: string, x: string)
    requires sp != [] && AllSpace(sp) && x != [] && !IsSpace(x[0])
    ensures SplitWs(ShowInt(id) + sp + x, 1) == [ShowInt(id), x]
  {
    IntNoSpace(id);
    WordThenRest(ShowInt(id), sp, x);
  }

  /** A well-formed `/edit_faq` line gives back its id, question and answer. */
  lemma EditFaqRoundTrip(cmd: string, sp0: string, id: int, sp1: string,
                         q: string, sp2: string, sp3: string, a: string, sp4: string)
    requires cmd != [] && NoSpace(cmd)
    requires sp0 != [] && sp1 != [] && AllSpace(sp0) && AllSpace(sp1)
    requires AllSpace(sp2) && AllSpace(sp3) && AllSpace(sp4)
    requires q != [] && a != [] && Trimmed(q) && Trimmed(a) && '|' !in q
    ensures ParseEditFaq(cmd + sp0 + (ShowInt(id) + sp1 + (q + sp2 + "|" + sp3 + a) + sp4))
            == Ok((id, q, a))
  {
    var body := ShowInt(id) + sp1 + (q + sp2 + "|" + sp3 + a);
    EditBodyTrimmed(id, sp1, q, sp2, sp3, a);
    assert (body + sp4)[0] == body[0];
    WordThenRest(cmd, sp0, body + sp4);
    StripPadded([], body, sp4);
    assert [] + body + sp4 == body + sp4;
    EditArgsRoundTrip(id, sp1, q, sp2, sp3, a);
    EditFaqParts(cmd + sp0 + (body + sp4), cmd, body + sp4);
  }

  /** The arguments of `/edit_faq` begin with the id and end with the answer. */
  lemma EditBodyTrimmed(id: int, sp1: string, q: string, sp2: string, sp3: string, a: string)
    requires q != [] && a != [] && Trimmed(a)
    ensures var body := ShowInt(id) + sp1 + (q + sp2 + "|" + sp3 + a);
      Trimmed(body) && body != [] && !IsSpace(body[0])
  {
    var x := q + sp2 + "|" + sp3 + a;
    assert x[|x| - 1] == a[|a| - 1];
    TrimmedBetween(ShowInt(id), sp1, x);
  }

  /** `/edit_faq` passes the stripped rest of the line on to `ParseEditArgs`. */
  lemma EditFaqParts(text: string, cmd: string, rest: string)
    requires SplitWs(text, 1) == [cmd, rest]
    ensures ParseEditFaq(text) == ParseEditArgs(Strip(rest))
  {
  }

  /** A word, whitespace, then a remainder that starts with a non-space. */
  lemma WordThenRest(w: string, sp: string, x: string)
    requires w != [] && NoSpace(w) && sp != [] && AllSpace(sp)
    requires x != [] && !IsSpace(x[0])
    ensures SplitWs(w + sp + x, 1) == [w, x]
  {
    SplitWsWord(w, sp, x, 1);
    SplitWsLast(x);
  }

  /** Whatever lies between two trimmed ends, the whole has trimmed ends too. */
  lemma TrimmedBetween(a: string, m: string, b: string)
    requires a != [] && !IsSpace(a[0]) && b != [] && !IsSpace(b[|b| - 1])
    ensures Trimmed(a + m + b) && (a + m + b) != []
      && (a + m + b)[0] == a[0]
  {
    var s := a + m + b;
    assert s[0] == a[0] && s[|s| - 1] == b[|b| - 1];
  }

  /** `str(i)` holds no whitespace. */
  lemma IntNoSpace(i: int)
    ensures NoSpace(ShowInt(i))
  {
    var s := ShowInt(i);
    forall k | 0 <= k < |s| ensures !IsSpace(s[k]) {
      assert s[k] in s;
    }
  }

  // ---------------------------------------------------------------------
  // The command handlers
  // ---------------------------------------------------------------------

  /** The first active operator of the company with exactly that stored id. */
  function OperatorWithId(ops: seq<Operator>, tg: string): (r: Option<Operator>)
    ensures r.Some? ==> r.value in ops && r.value.telegramId == tg
    ensures r.None? ==> forall o :: o in ops ==> o.telegramId != tg
  {
    match FindFirst(ops, (o: Operator) => o.telegramId == tg)
    case None => None
    case Some(i) => Some(ops[i])
  }

  /** `/add_operator`. */
  method AddOperatorCmd(store: Store, adminIds: string, actor: nat, text: string) returns (out: seq<Outgoing>)
    requires store.Valid()
    modifies store`operators
    ensures store.Valid()
    ensures !IsAdmin(adminIds, actor) ==> store.operators == old(store.operators) && out == [Reply(NotAllowed)]
    ensures IsAdmin(adminIds, actor) ==> match ParseAddOperator(text)
      case Err(m) => store.operators == old(store.operators) && out == [Reply(m)]
      case Ok((tg, name)) =>
        && store.operators == Registered(old(store.operators), Company, tg, name)
        && out == [Reply(OperatorAdded(name, tg))]
  {
    if !IsAdmin(adminIds, actor) {
      return [Reply(NotAllowed)];
    }
    match ParseAddOperator(text) {
      case Err(m) =>
        out := [Reply(m)];
      case Ok((tg, name)) =>
        var _ := store.AddOperator(Company, tg, name);
        out := [Reply(OperatorAdded(name, tg))];
    }
  }

  /**
    `/remove_operator`: the active operator row of company 1 whose stored
    id is textually equal to the argument is deactivated. Afterwards no
    row with that id is active (stored ids are unique).
  */
  method RemoveOperatorCmd(store: Store, adminIds: string, actor: nat, text: string) returns (out: seq<Outgoing>)
    requires store.Valid()
    modifies store`operators
    ensures store.Valid()
    ensures !IsAdmin(adminIds, actor) ==> store.operators == old(store.operators) && out == [Reply(NotAllowed)]
    ensures IsAdmin(adminIds, actor) ==> match ParseIdArgument(text, RemoveOperatorUsage)
      case Err(m) => store.operators == old(store.operators) && out == [Reply(m)]
      case Ok(tg) =>
        match OperatorWithId(old(store.GetOperators(Company)), tg)
        case None =>
          && store.operators == old(store.operators) && out == [Reply(OperatorNotFound)]
          && forall o :: o in store.operators && o.telegramId == tg ==> !IsActiveOperatorOf(o, Company)
        case Some(op) =>
          && store.operators == Deactivated(old(store.operators), op.id)
          && out == [Reply(OperatorRemoved(tg))]
          && forall o :: o in store.operators && o.telegramId == tg ==> !o.isActive
  {
    if !IsAdmin(adminIds, actor) {
      return [Reply(NotAllowed)];
    }
    match ParseIdArgument(text, RemoveOperatorUsage) {
      case Err(m) =>
        out := [Reply(m)];
      case Ok(tg) =>
        var ops := store.GetOperators(Company);
        match OperatorWithId(ops, tg) {
          case None =>
            out := [Reply(OperatorNotFound)];
          case Some(op) =>
            ghost var before := store.operators;
            store.DeactivateOperator(op.id);
            DeactivatedRow(before, op, tg);
            out := [Reply(OperatorRemoved(tg))];
        }
    }
  }

  /** Deactivating the one row with a stored id leaves no active row with it. */
  lemma DeactivatedRow(ops: seq<Operator>, op: Operator, tg: string)
    requires OperatorsNumbered(ops) && UniqueTelegramIds(ops)
    requires op in ops && op.telegramId == tg
    ensures forall o :: o in Deactivated(ops, op.id) && o.telegramId == tg ==> !o.isActive
  {
    var r := Deactivated(ops, op.id);
    forall o | o in r && o.telegramId == tg ensures !o.isActive {
      var j :| 0 <= j < |r| && r[j] == o;
      var i :| 0 <= i < |ops| && ops[i] == op;
      assert ops[j].telegramId == tg;
      assert i == j;
    }
  }

  /** `/add_faq`: a new entry of company 1, announced with its id. */
  method AddFaqCmd(store: Store, adminIds: string, actor: nat, text: string) returns (out: seq<Outgoing>)
    requires store.Valid()
    modifies store`faqs, store`nextFaqId
    ensures store.Valid()
    ensures !IsAdmin(adminIds, actor) ==>
      store.faqs == old(store.faqs) && store.nextFaqId == old(store.nextFaqId) && out == [Reply(NotAllowed)]
    ensures IsAdmin(adminIds, actor) ==> match ParseAddFaq(text)
      case Err(m) =>
        store.faqs == old(store.faqs) && store.nextFaqId == old(store.nextFaqId) && out == [Reply(m)]
      case Ok((q, a)) =>
        && store.faqs == old(store.faqs) + [FaqEntry(old(store.nextFaqId), Company, q, a)]
        && store.nextFaqId == old(store.nextFaqId) + 1
        && out == [Reply(FaqAdded(old(store.nextFaqId)))]
  {
    if !IsAdmin(adminIds, actor) {
      return [Reply(NotAllowed)];
    }
    match ParseAddFaq(text) {
      case Err(m) =>
        out := [Reply(m)];
      case Ok((q, a)) =>
        var e := store.CreateFaqEntry(Company, q, a);
        out := [Reply(FaqAdded(e.id))];
    }
  }

  /** `/del_faq`: the entry with that id is gone (whatever its company); the reply does not check it existed. */
  method DelFaqCmd(store: Store, adminIds: string, actor: nat, text: string) returns (out: seq<Outgoing>)
    requires store.Valid()
    modifies store`faqs
    ensures store.Valid()
    ensures !IsAdmin(adminIds, actor) ==> store.faqs == old(store.faqs) && out == [Reply(NotAllowed)]
    ensures IsAdmin(adminIds, actor) ==> match ParseIdArgument(text, DelFaqUsage)
      case Err(m) => store.faqs == old(store.faqs) && out == [Reply(m)]
      case Ok(digits) =>
        var id := DigitsValue(digits) as int;
        && (forall e :: e in store.faqs <==> e in old(store.faqs) && e.id != id)
        && store.GetFaqById(id).None?
        && out == [Reply(FaqDeleted(id))]
  {
    if !IsAdmin(adminIds, actor) {
      return [Reply(NotAllowed)];
    }
    match ParseIdArgument(text, DelFaqUsage) {
      case Err(m) =>
        out := [Reply(m)];
      case Ok(digits) =>
        ParseDigits(digits);
        var id := ParseInt(digits).value;
        store.DeleteFaqEntry(id);
        out := [Reply(FaqDeleted(id))];
    }
  }

  /**
    `/edit_faq`: question and answer of the entry with that id are
    rewritten; when there is none nothing changes, and the confirmation is
    sent all the same.
  */
  method EditFaqCmd(store: Store, adminIds: string, actor: nat, text: string) returns (out: seq<Outgoing>)
    requires store.Valid()
    modifies store`faqs
    ensures store.Valid()
    ensures !IsAdmin(adminIds, actor) ==> store.faqs == old(store.faqs) && out == [Reply(NotAllowed)]
    ensures IsAdmin(adminIds, actor) ==> match ParseEditFaq(text)
      case Err(m) => store.faqs == old(store.faqs) && out == [Reply(m)]
      case Ok((id, q, a)) =>
        && store.faqs == FaqsUpdated(old(store.faqs), id, q, a)
        && ((forall e :: e in old(store.faqs) ==> e.id != id) ==> store.faqs == old(store.faqs))
        && out == [Reply(FaqUpdated(id))]
  {
    if !IsAdmin(adminIds, actor) {
      return [Reply(NotAllowed)];
    }
    match ParseEditFaq(text) {
      case Err(m) =>
        out := [Reply(m)];
      case Ok((id, q, a)) =>
        ghost var before := store.faqs;
        store.UpdateFaqEntry(id, q, a);
        if forall e :: e in before ==> e.id != id {
          assert forall j :: 0 <= j < |before| ==> before[j].id != id by {
            forall j | 0 <= j < |before| ensures before[j].id != id {
              assert before[j] in before;
            }
          }
          assert store.faqs == before;
        }
        out := [Reply(FaqUpdated(id))];
    }
  }

  // ---------------------------------------------------------------------
  // `/list_faq`
  // ---------------------------------------------------------------------

  /** The bold heading of the listing. */
  const ListTitle: string := "<b>Список текущих FAQ:</b>"

  /** `f"{entry.id}. {entry.question}"`. */
  function ListingLine(e: FaqEntry): string {
    ShowInt(e.id) + ". " + e.question
  }

  /** The listed line of each entry, in order. */
  function ListingLines(es: seq<FaqEntry>): (ls: seq<string>)
    ensures |ls| == |es|
    ensures forall i :: 0 <= i < |es| ==> ls[i] == ListingLine(es[i])
  {
    if es == [] then [] else ListingLines(es[..|es| - 1]) + [ListingLine(es[|es| - 1])]
  }

  /** The whole `/list_faq` text: the heading, then one line per entry. */
  function ListingText(es: seq<FaqEntry>): (r: string)
    ensures ListTitle + "\n" <= r
  {
    ListTitle + "\n" + Lines(ListingLines(es))
  }

  /** The heading is a single line. */
  lemma ListTitleOneLine()
    ensures '\n' !in ListTitle
  {
  }

  /** An entry whose question is one line is listed on one line. */
  lemma ListingLineOneLine(e: FaqEntry)
    requires '\n' !in e.question
    ensures '\n' !in ListingLine(e)
  {
    var n := ShowInt(e.id);
    assert '\n' !in n;
    assert ListingLine(e) == n + ". " + e.question;
  }

  /**
    Read line by line, the listing is the heading, then each entry's id and
    question in order, then the empty text after the last newline (when no
    question holds a newline).
  */
  lemma ListingTextLines(es: seq<FaqEntry>)
    requires forall i :: 0 <= i < |es| ==> '\n' !in es[i].question
    ensures Split(ListingText(es), '\n') == [ListTitle] + ListingLines(es) + [""]
  {
    ListTitleOneLine();
    TitledListingLines(ListTitle, es);
  }

  /** The same under any one-line heading. */
  lemma TitledListingLines(h: string, es: seq<FaqEntry>)
    requires '\n' !in h
    requires forall i :: 0 <= i < |es| ==> '\n' !in es[i].question
    ensures Split(h + "\n" + Lines(ListingLines(es)), '\n') == [h] + ListingLines(es) + [""]
  {
    ListingLinesOneLine(es);
    SplitTitled(h, ListingLines(es));
  }

  lemma ListingLinesOneLine(es: seq<FaqEntry>)
    requires forall i :: 0 <= i < |es| ==> '\n' !in es[i].question
    ensures forall k :: 0 <= k < |es| ==> '\n' !in ListingLines(es)[k]
  {
    forall k | 0 <= k < |es| ensures '\n' !in ListingLines(es)[k] {
      ListingLineOneLine(es[k]);
    }
  }

  /** The text before the first '.' of a listed line reads back as the entry's id. */
  lemma ListingLineId(e: FaqEntry)
    ensures SplitFirst(ListingLine(e), '.') == Some((ShowInt(e.id), " " + e.question))
    ensures ParseInt(ShowInt(e.id)) == Some(e.id)
  {
    var n := ShowInt(e.id);
    assert '.' !in n;
    assert ListingLine(e) == n + ['.'] + (" " + e.question);
    SplitFirstOf(n, " " + e.question, '.');
    ParseShowInt(e.id);
  }

  /** `cmd_list_faq`: the loop that appends one line per entry. */
  method ListFaqCmd(store: Store, adminIds: string, actor: nat) returns (out: seq<Outgoing>)
    requires store.Valid()
    ensures !IsAdmin(adminIds, actor) ==> out == [Reply(NotAllowed)]
    ensures IsAdmin(adminIds, actor) ==>
      var es := store.GetFaqEntries(Company);
      out == [Reply(if es == [] then FaqEmpty else FaqListing(ListingText(es)))]
  {
    if !IsAdmin(adminIds, actor) {
      return [Reply(NotAllowed)];
    }
    var entries := store.GetFaqEntries(Company);
    if entries == [] {
      return [Reply(FaqEmpty)];
    }
    var body := ListingBody(entries);
    out := [Reply(FaqListing(ListTitle + "\n" + body))];
  }

  /** The `for entry in entries: text += ...` loop. */
  method ListingBody(entries: seq<FaqEntry>) returns (body: string)
    ensures body == Lines(ListingLines(entries))
  {
    body := "";
    var i := 0;
    while i < |entries|
      invariant 0 <= i <= |entries|
      invariant body == Lines(ListingLines(entries[..i]))
    {
      assert entries[..i + 1][..i] == entries[..i];
      LinesSnoc(ListingLines(entries[..i]), ListingLine(entries[i]));
      body := body + ListingLine(entries[i]) + "\n";
      i := i + 1;
    }
    assert entries[..i] == entries;
  }
}
