/**
  bot/filters.py and the router set-up of bot/main.py: who counts as an
  admin, an operator or a customer, and which router sees an update first.
  The filters only read: they are functions over the store.
*/
module Filters {
  import opened Wrappers
  import opened Text
  import opened Models
  import opened Crud
  import opened Config

  /**
    `IsAdmin`: `user_id in config.get_admin_list`, the list read afresh from
    the configured string: some comma-separated segment of it is, once
    stripped, a numeral spelling the actor's id.
  */
  function IsAdmin(adminIds: string, actor: nat): (b: bool)
    ensures var segs := Split(adminIds, ',');
      b <==> exists k :: 0 <= k < |segs| && IsDigits(Strip(segs[k])) && DigitsValue(Strip(segs[k])) == actor
  {
    AdminListHas(adminIds, actor);
    actor as int in AdminList(adminIds)
  }

  /** `any(p(x) for x in xs)`. */
  function Any<T>(xs: seq<T>, p: T -> bool): (b: bool)
    ensures b <==> exists i :: 0 <= i < |xs| && p(xs[i])
  {
    if xs == [] then false
    else if p(xs[0]) then true
    else
      var b := Any(xs[1..], p);
      assert forall i :: 1 <= i < |xs| ==> xs[i] == xs[1..][i - 1];
      b
  }

  /**
    `IsOperator`: some operator row of company 1 that `get_operators`
    returns, so an active one, has `int(telegram_id)` equal to the actor's
    id. A deactivated row never makes its owner an operator.
  */
  function IsOperator(store: Store, actor: nat): (b: bool)
    reads store
    requires store.Valid()
    ensures b <==> exists o :: o in store.operators && IsActiveOperatorOf(o, Company)
                              && DigitsValue(o.telegramId) == actor
  {
    var ops := store.GetOperators(Company);
    var p := (o: Operator) => ParseInt(o.telegramId) == Some(actor as int);
    var b := Any(ops, p);
    assert forall o :: o in ops ==> (p(o) <==> DigitsValue(o.telegramId) == actor) by {
      forall o | o in ops ensures p(o) <==> DigitsValue(o.telegramId) == actor {
        ParseDigits(o.telegramId);
      }
    }
    b
  }

  /** `IsUser`: neither an admin nor an active operator. */
  function IsUser(adminIds: string, store: Store, actor: nat): (b: bool)
    reads store
    requires store.Valid()
    ensures b <==> !IsAdmin(adminIds, actor) && !IsOperator(store, actor)
  {
    if IsAdmin(adminIds, actor) then false
    else if IsOperator(store, actor) then false
    else true
  }

  /** The three routers, in the order `main` includes them. */
  datatype Router = AdminRouter | OperatorRouter | UserRouter

  /** Whether a router's filter lets the actor's updates through. */
  function Admits(adminIds: string, store: Store, actor: nat, r: Router): bool
    reads store
    requires store.Valid()
  {
    match r
    case AdminRouter => IsAdmin(adminIds, actor)
    case OperatorRouter => IsOperator(store, actor)
    case UserRouter => IsUser(adminIds, store, actor)
  }

  /**
    The routers whose filters pass, in the order the dispatcher tries them
    (admin, operator, user), for an actor who is or is not an admin and an
    active operator. There is always at least one; the customer router is
    there exactly when it is the only one; an admin reaches the admin
    router first even when also an operator.
  */
  function Routers(admin: bool, operator: bool): (rs: seq<Router>)
    ensures |rs| >= 1
    ensures AdminRouter in rs <==> admin
    ensures OperatorRouter in rs <==> operator
    ensures UserRouter in rs <==> !admin && !operator
    ensures UserRouter in rs <==> rs == [UserRouter]
    ensures admin ==> rs[0] == AdminRouter
    ensures !admin && operator ==> rs == [OperatorRouter]
    ensures forall i, j :: 0 <= i < j < |rs| ==> Order(rs[i]) < Order(rs[j])
  {
    (if admin then [AdminRouter] else [])
    + (if operator then [OperatorRouter] else [])
    + (if !admin && !operator then [UserRouter] else [])
  }

  /** The routers that may handle an update from `actor`. */
  function Candidates(adminIds: string, store: Store, actor: nat): seq<Router>
    reads store
    requires store.Valid()
  {
    Routers(IsAdmin(adminIds, actor), IsOperator(store, actor))
  }

  /** A router is a candidate exactly when its filter admits the actor. */
  lemma CandidatesAdmitted(adminIds: string, store: Store, actor: nat, r: Router)
    requires store.Valid()
    ensures r in Candidates(adminIds, store, actor) <==> Admits(adminIds, store, actor, r)
  {
    var a, o := IsAdmin(adminIds, actor), IsOperator(store, actor);
    assert Candidates(adminIds, store, actor) == Routers(a, o);
    match r {
      case AdminRouter =>
      case OperatorRouter =>
      case UserRouter => assert IsUser(adminIds, store, actor) == (!a && !o);
    }
  }

  /** Registration order of the routers (bot/main.py). */
  function Order(r: Router): nat {
    match r
    case AdminRouter => 0
    case OperatorRouter => 1
    case UserRouter => 2
  }

  /**
    Deactivating the only row that carries an operator's number makes the
    operator a customer again (unless they are an admin).
  */
  lemma DeactivatedIsUser(adminIds: string, store: Store, before: seq<Operator>, id: int, actor: nat)
    requires store.Valid() && OperatorsNumbered(before)
    requires store.operators == Deactivated(before, id)
    requires forall o :: o in before && DigitsValue(o.telegramId) == actor && IsDigits(o.telegramId) ==> o.id == id
    requires !IsAdmin(adminIds, actor)
    ensures IsUser(adminIds, store, actor)
  {
    forall o | o in store.operators && IsActiveOperatorOf(o, Company)
      ensures DigitsValue(o.telegramId) != actor
    {
      var j :| 0 <= j < |store.operators| && store.operators[j] == o;
      assert IsDigits(o.telegramId);
      if before[j].id != id {
        assert o == before[j];
      }
    }
  }

  /** Registering an id makes its owner an operator (of the row's company). */
  lemma RegisteredIsOperator(store: Store, before: seq<Operator>, name: string, actor: nat)
    requires store.Valid() && OperatorsNumbered(before) && UniqueTelegramIds(before)
    requires store.operators == Registered(before, Company, Key(actor), name)
    requires forall o :: o in before && o.telegramId == Key(actor) ==> o.companyId == Company
    ensures IsOperator(store, actor)
  {
    ShowNatValue(actor);
    if exists i :: 0 <= i < |before| && before[i].telegramId == Key(actor) {
      var i :| 0 <= i < |before| && before[i].telegramId == Key(actor);
      assert store.operators[i] == before[i].(isActive := true, fullName := name);
      assert store.operators[i] in store.operators;
    } else {
      assert store.operators[|before|] in store.operators;
    }
  }
}
