/** Plans, subscriptions, payments and the userbots they suspend or resume
    (`app/billing/service.py` and `app/billing/repositories.py`).

    A table is a map from ids to rows, ids are given out in increasing order starting at 1, and
    one service call is one transaction: a call that raises leaves the tables as they were.
    Times are in seconds. */
module Billing {
  import opened Common
  import opened PaymentReference
  import Userbots

  const SECONDS_PER_DAY := 86400

  datatype Plan = Plan(price: int, durationDays: int, maxModules: int, isActive: bool)

  datatype SubscriptionStatus = Pending | Active | Expired | Cancelled

  datatype Subscription = Subscription(userId: int, planId: int, status: SubscriptionStatus,
                                       startedAt: Option<int>, expiresAt: Option<int>)

  datatype PaymentStatus = InReview | Approved | Rejected

  datatype Payment = Payment(reference: string, userId: int, planId: int, subscriptionId: Option<int>, amount: int,
                             status: PaymentStatus, reviewedBy: Option<int>, reviewedAt: Option<int>,
                             rejectReason: Option<string>)

  datatype Bot = Bot(userId: int, status: Userbots.Status)

  datatype Error = NotFound | Conflict | MultipleRows

  datatype Db = Db(plans: map<int, Plan>, subscriptions: map<int, Subscription>, payments: map<int, Payment>,
                   bots: map<int, Bot>, nextSubscription: nat, nextPayment: nat)

  // ----- Queries -----

  function ActiveIds(subscriptions: map<int, Subscription>, userId: int): set<int> {
    set id | id in subscriptions && subscriptions[id].userId == userId && subscriptions[id].status == Active
  }

  /** `active_for_user`: asks for one row or none, so a second active row is an error. */
  ghost function ActiveForUser(subscriptions: map<int, Subscription>, userId: int): Result<Option<int>, Error> {
    var ids := ActiveIds(subscriptions, userId);
    if ids == {} then Ok(None) else
    if |ids| == 1 then Ok(Some(Pick(ids))) else Err(MultipleRows)
  }

  /** `list_expired_active` */
  function DueIds(subscriptions: map<int, Subscription>, now: int): set<int> {
    set id | id in subscriptions && subscriptions[id].status == Active
      && subscriptions[id].expiresAt.Some? && subscriptions[id].expiresAt.value < now
  }

  // ----- The transactions -----

  datatype Operation =
    | Purchase(userId: int, planId: int)
    | Approve(paymentId: int, adminId: int, now: int)
    | Reject(paymentId: int, adminId: int, reason: Option<string>, now: int)
    | ExpireDue(now: int)
    | EditPlan(planId: int, price: int, durationDays: int)
    /** Any other part of the platform changes, adds or removes userbots. */
    | OtherBotWrites(bots: map<int, Bot>)

  /** Why an operation raises; None when it goes through. */
  ghost function Refusal(db: Db, op: Operation): Option<Error> {
    match op
    case Purchase(userId, planId) =>
      if planId !in db.plans then Some(NotFound)
      else if !db.plans[planId].isActive then Some(Conflict)
      else (match ActiveForUser(db.subscriptions, userId)
            case Err(e) => Some(e)
            case Ok(Some(_)) => Some(Conflict)
            case Ok(None) => None)
    case Approve(paymentId, _, _) =>
      if paymentId !in db.payments then Some(NotFound)
      else
        var payment := db.payments[paymentId];
        if payment.status != InReview then Some(Conflict)
        else if payment.planId !in db.plans then Some(NotFound)
        else if payment.subscriptionId.None? || payment.subscriptionId.value !in db.subscriptions then Some(NotFound)
        else None
    case Reject(paymentId, _, _, _) =>
      if paymentId !in db.payments then Some(NotFound)
      else if db.payments[paymentId].status != InReview then Some(Conflict)
      else None
    case ExpireDue(_) => None
    case EditPlan(planId, _, _) => if planId in db.plans then None else Some(NotFound)
    case OtherBotWrites(_) => None
  }

  /** `_set_userbot_status`: all userbots of a set of users. */
  function WithBotStatus(bots: map<int, Bot>, owners: set<int>, status: Userbots.Status): map<int, Bot> {
    map b | b in bots :: if bots[b].userId in owners then bots[b].(status := status) else bots[b]
  }

  function Owners(subscriptions: map<int, Subscription>, ids: set<int>): set<int> {
    set id | id in ids && id in subscriptions :: subscriptions[id].userId
  }

  function WithExpired(subscriptions: map<int, Subscription>, ids: set<int>): map<int, Subscription> {
    map id | id in subscriptions :: if id in ids then subscriptions[id].(status := Expired) else subscriptions[id]
  }

  /** The tables when some of the subscriptions that are due have been dealt with. */
  function AfterExpiring(db: Db, ids: set<int>): Db {
    db.(subscriptions := WithExpired(db.subscriptions, ids),
        bots := WithBotStatus(db.bots, Owners(db.subscriptions, ids), Userbots.Suspended))
  }

  /** The tables after an operation that goes through. */
  ghost function Effect(db: Db, op: Operation): Db
    requires Refusal(db, op).None?
  {
    match op
    case Purchase(userId, planId) =>
      db.(subscriptions := db.subscriptions[db.nextSubscription := Subscription(userId, planId, Pending, None, None)],
          payments := db.payments[db.nextPayment :=
                        Payment(Reference(db.nextPayment), userId, planId, Some(db.nextSubscription),
                          db.plans[planId].price,
                                InReview, None, None, None)],
          nextSubscription := db.nextSubscription + 1,
          nextPayment := db.nextPayment + 1)
    case Approve(paymentId, adminId, now) =>
      var payment := db.payments[paymentId];
      var subscription := db.subscriptions[payment.subscriptionId.value];
      var expiresAt := now + SECONDS_PER_DAY * db.plans[payment.planId].durationDays;
      var approved := payment.(status := Approved, reviewedBy := Some(adminId), reviewedAt := Some(now));
      db.(payments := db.payments[paymentId := approved],
          subscriptions := db.subscriptions[payment.subscriptionId.value :=
                             Subscription(subscription.userId, payment.planId, Active, Some(now), Some(expiresAt))],
          bots := WithBotStatus(db.bots, {subscription.userId}, Userbots.Stopped))
    case Reject(paymentId, adminId, reason, now) =>
      var payment := db.payments[paymentId];
      var rejected := payment.(status := Rejected, reviewedBy := Some(adminId), reviewedAt := Some(now),
                               rejectReason := reason);
      var id := payment.subscriptionId;
      db.(payments := db.payments[paymentId := rejected],
          subscriptions :=
            if id.Some? && id.value in db.subscriptions && db.subscriptions[id.value].status == Pending
            then db.subscriptions[id.value := db.subscriptions[id.value].(status := Cancelled)]
            else db.subscriptions)
    case ExpireDue(now) => AfterExpiring(db, DueIds(db.subscriptions, now))
    case EditPlan(planId, price, durationDays) =>
      db.(plans := db.plans[planId := db.plans[planId].(price := price, durationDays := durationDays)])
    case OtherBotWrites(bots) => db.(bots := bots)
  }

  ghost function Apply(db: Db, op: Operation): Db {
    if Refusal(db, op).None? then Effect(db, op) else db
  }

  ghost function After(db: Db, ops: seq<Operation>): Db {
    if ops == [] then db else Apply(After(db, Init(ops)), Last(ops))
  }

  class BillingService {
    var plans: map<int, Plan>
    var subscriptions: map<int, Subscription>
    var payments: map<int, Payment>
    var bots: map<int, Bot>
    var nextSubscription: nat
    var nextPayment: nat

    ghost function State(): Db
      reads this
    {
      Db(plans, subscriptions, payments, bots, nextSubscription, nextPayment)
    }

    constructor (plans: map<int, Plan>, bots: map<int, Bot>)
      ensures State() == Start(plans, bots)
    {
      this.plans, this.bots := plans, bots;
      subscriptions, payments, nextSubscription, nextPayment := map[], map[], 1, 1;
    }

    method FindActive(userId: int) returns (r: Result<Option<int>, Error>)
      ensures r == ActiveForUser(subscriptions, userId)
    {
      var ids := ActiveIds(subscriptions, userId);
      if ids == {} {
        return Ok(None);
      }
      if |ids| != 1 {
        return Err(MultipleRows);
      }
      var id := PickOne(ids);
      OnlyElement(ids, id);
      return Ok(Some(id));
    }

    method PurchasePlan(userId: int, planId: int) returns (r: Result<Payment, Error>)
      modifies this
      ensures var op := Purchase(userId, planId);
              match Refusal(old(State()), op)
              case Some(e) => r == Err(e) && State() == old(State())
              case None => State() == Effect(old(State()), op) && r == Ok(payments[old(nextPayment)])
    {
      if planId !in plans {
        return Err(NotFound);
      }
      var plan := plans[planId];
      if !plan.isActive {
        return Err(Conflict);
      }
      var active := FindActive(userId);
      if active.Err? {
        return Err(active.error);
      }
      if active.value.Some? {
        return Err(Conflict);
      }
      var subscriptionId := nextSubscription;
      subscriptions := subscriptions[subscriptionId := Subscription(userId, planId, Pending, None, None)];
      nextSubscription := nextSubscription + 1;
      var id := nextPayment;
      payments := payments[id := Payment(PLACEHOLDER, userId, planId, Some(subscriptionId), plan.price,
                                         InReview, None, None, None)];
      nextPayment := nextPayment + 1;
      payments := payments[id := payments[id].(reference := Reference(id))];
      return Ok(payments[id]);
    }

    method ApprovePayment(paymentId: int, adminId: int, now: int) returns (r: Result<Payment, Error>)
      modifies this
      ensures var op := Approve(paymentId, adminId, now);
              match Refusal(old(State()), op)
              case Some(e) => r == Err(e) && State() == old(State())
              case None => State() == Effect(old(State()), op) && r == Ok(payments[paymentId])
    {
      if paymentId !in payments {
        return Err(NotFound);
      }
      var payment := payments[paymentId];
      if payment.status != InReview {
        return Err(Conflict);
      }
      if payment.planId !in plans {
        return Err(NotFound);
      }
      var plan := plans[payment.planId];
      if payment.subscriptionId.None? || payment.subscriptionId.value !in subscriptions {
        return Err(NotFound);
      }
      payment := payment.(status := Approved, reviewedBy := Some(adminId), reviewedAt := Some(now));
      payments := payments[paymentId := payment];
      var id := payment.subscriptionId.value;
      var subscription := subscriptions[id];
      subscriptions := subscriptions[id :=
        subscription.(planId := payment.planId, status := Active, startedAt := Some(now),
                                                         expiresAt := Some(now + SECONDS_PER_DAY * plan.durationDays))];
      SetUserbotStatus(subscription.userId, Userbots.Stopped);
      return Ok(payments[paymentId]);
    }

    method RejectPayment(paymentId: int, adminId: int, reason: Option<string>, now: int)
      returns (r: Result<Payment, Error>)
      modifies this
      ensures var op := Reject(paymentId, adminId, reason, now);
              match Refusal(old(State()), op)
              case Some(e) => r == Err(e) && State() == old(State())
              case None => State() == Effect(old(State()), op) && r == Ok(payments[paymentId])
    {
      if paymentId !in payments {
        return Err(NotFound);
      }
      var payment := payments[paymentId];
      if payment.status != InReview {
        return Err(Conflict);
      }
      payment := payment.(status := Rejected, reviewedBy := Some(adminId), reviewedAt := Some(now),
                          rejectReason := reason);
      payments := payments[paymentId := payment];
      if payment.subscriptionId.Some? && payment.subscriptionId.value in subscriptions {
        var id := payment.subscriptionId.value;
        if subscriptions[id].status == Pending {
          subscriptions := subscriptions[id := subscriptions[id].(status := Cancelled)];
        }
      }
      return Ok(payment);
    }

    /** The rows are visited one by one, in any order. */
    method ExpireDueSubscriptions(now: int) returns (count: nat)
      modifies this
      ensures State() == Effect(old(State()), ExpireDue(now))
      ensures count == |DueIds(old(subscriptions), now)|
    {
      var due := DueIds(subscriptions, now);
      count := |due|;
      var left := due;
      ghost var done: set<int> := {};
      NothingExpiredYet(old(State()));
      while left != {}
        invariant due == done + left && done !! left
        invariant State() == AfterExpiring(old(State()), done)
        decreases left
      {
        var id := PickOne(left);
        OneMoreExpired(old(State()), done, id);
        subscriptions := subscriptions[id := subscriptions[id].(status := Expired)];
        SetUserbotStatus(subscriptions[id].userId, Userbots.Suspended);
        left, done := left - {id}, done + {id};
      }
      assert done == due;
    }

    method SetUserbotStatus(userId: int, status: Userbots.Status)
      modifies this`bots
      ensures bots == WithBotStatus(old(bots), {userId}, status)
    {
      bots := map b | b in bots ::
        if bots[b].userId == userId && bots[b].status != status then bots[b].(status := status) else bots[b];
    }
  }

  lemma NothingExpiredYet(db: Db)
    ensures AfterExpiring(db, {}) == db
  {
    assert Owners(db.subscriptions, {}) == {};
  }

  /** One turn of the expiry loop, read on the tables. */
  lemma OneMoreExpired(db: Db, done: set<int>, id: int)
    requires id in db.subscriptions && id !in done
    ensures var now := AfterExpiring(db, done);
            && now.subscriptions[id] == db.subscriptions[id]
            && AfterExpiring(db, done + {id})
                 == now.(subscriptions := now.subscriptions[id := db.subscriptions[id].(status := Expired)],
                         bots := WithBotStatus(now.bots, {db.subscriptions[id].userId}, Userbots.Suspended))
  {
    assert Owners(db.subscriptions, done + {id}) == Owners(db.subscriptions, done) + {db.subscriptions[id].userId};
  }

  // ----- Payments and subscriptions move in lock step -----

  ghost predicate Paired(payment: PaymentStatus, subscription: SubscriptionStatus) {
    match payment
    case InReview => subscription == Pending
    case Approved => subscription == Active || subscription == Expired
    case Rejected => subscription == Cancelled
  }

  ghost predicate PaymentLinked(db: Db, id: int)
    requires id in db.payments
  {
    var payment := db.payments[id];
    && 0 < id < db.nextPayment
    && payment.reference == Reference(id)
    && payment.planId in db.plans
    && (payment.reviewedBy.Some? <==> payment.status != InReview)
    && (payment.reviewedAt.Some? <==> payment.status != InReview)
    && payment.subscriptionId.Some? && payment.subscriptionId.value in db.subscriptions
    && var subscription := db.subscriptions[payment.subscriptionId.value];
       && subscription.userId == payment.userId && subscription.planId == payment.planId
       && Paired(payment.status, subscription.status)
  }

  ghost predicate Owns(db: Db, payment: int, subscription: int) {
    payment in db.payments && db.payments[payment].subscriptionId == Some(subscription)
  }

  predicate DatesMatchStatus(subscription: Subscription) {
    var dated := subscription.status in {Active, Expired};
    subscription.expiresAt.Some? == dated && subscription.startedAt.Some? == dated
  }

  ghost predicate SubscriptionLinked(db: Db, id: int)
    requires id in db.subscriptions
  {
    && 0 < id < db.nextSubscription
    && DatesMatchStatus(db.subscriptions[id])
    && exists p :: Owns(db, p, id)
  }

  /** Every payment has a subscription of its own, of the same user and plan and in the matching
      status, and every subscription belongs to a payment. */
  ghost predicate Linked(db: Db) {
    && db.nextSubscription > 0 && db.nextPayment > 0
    && (forall id | id in db.payments :: PaymentLinked(db, id))
    && (forall id | id in db.subscriptions :: SubscriptionLinked(db, id))
    && (forall p, q, s :: Owns(db, p, s) && Owns(db, q, s) ==> p == q)
  }

  function Start(plans: map<int, Plan>, bots: map<int, Bot>): Db {
    Db(plans, map[], map[], bots, 1, 1)
  }

  lemma ApplyKeepsLinked(db: Db, op: Operation)
    requires Linked(db)
    ensures Linked(Apply(db, op))
  {
    if Refusal(db, op).None? {
      match op
      case Purchase(_, _) => PurchaseKeepsLinked(db, op);
      case Approve(id, _, _) =>
        assert PaymentLinked(db, id);
        OneRowKeepsLinked(db, Effect(db, op), id);
      case Reject(id, _, _, _) =>
        assert PaymentLinked(db, id) && SubscriptionLinked(db, db.payments[id].subscriptionId.value);
        OneRowKeepsLinked(db, Effect(db, op), id);
      case ExpireDue(now) => ExpiryKeepsLinked(db, now);
      case EditPlan(_, _, _) => SameRowsKeepLinked(db, Effect(db, op));
      case OtherBotWrites(_) => SameRowsKeepLinked(db, Effect(db, op));
    }
  }

  lemma PurchaseKeepsLinked(db: Db, op: Operation)
    requires Linked(db) && op.Purchase? && Refusal(db, op).None?
    ensures Linked(Effect(db, op))
  {
    var db' := Effect(db, op);
    assert Owns(db', db.nextPayment, db.nextSubscription);
    forall s | s in db'.subscriptions ensures SubscriptionLinked(db', s) {
      if s != db.nextSubscription {
        assert SubscriptionLinked(db, s);
        var p :| Owns(db, p, s);
        assert PaymentLinked(db, p) && Owns(db', p, s);
      }
    }
    forall p | p in db'.payments ensures PaymentLinked(db', p) {
      if p != db.nextPayment {
        assert PaymentLinked(db, p) && SubscriptionLinked(db, db.payments[p].subscriptionId.value);
      }
    }
    forall p, q, s | Owns(db', p, s) && Owns(db', q, s) ensures p == q {
      assert p != db.nextPayment ==> PaymentLinked(db, p) && Owns(db, p, s) && SubscriptionLinked(db, s);
      assert q != db.nextPayment ==> PaymentLinked(db, q) && Owns(db, q, s) && SubscriptionLinked(db, s);
    }
  }

  lemma ExpiryKeepsLinked(db: Db, now: int)
    requires Linked(db)
    ensures Linked(Effect(db, ExpireDue(now)))
  {
    var db' := Effect(db, ExpireDue(now));
    forall s | s in db'.subscriptions ensures SubscriptionLinked(db', s) {
      assert SubscriptionLinked(db, s);
      var p :| Owns(db, p, s);
      assert Owns(db', p, s);
    }
    forall p | p in db'.payments ensures PaymentLinked(db', p) {
      assert PaymentLinked(db, p);
    }
    forall p, q, s | Owns(db', p, s) && Owns(db', q, s) ensures p == q {
      assert Owns(db, p, s) && Owns(db, q, s);
    }
  }

  lemma SameRowsKeepLinked(db: Db, db': Db)
    requires Linked(db)
    requires db' == db.(plans := db'.plans, bots := db'.bots) && db.plans.Keys <= db'.plans.Keys
    ensures Linked(db')
  {
    forall s | s in db'.subscriptions ensures SubscriptionLinked(db', s) {
      var p :| Owns(db, p, s);
      assert Owns(db', p, s);
    }
    forall p | p in db'.payments ensures PaymentLinked(db', p) {
      assert PaymentLinked(db, p);
    }
    forall p, q, s | Owns(db', p, s) && Owns(db', q, s) ensures p == q {
      assert Owns(db, p, s) && Owns(db, q, s);
    }
  }

  /** A review touches one payment and the subscription it owns. */
  lemma OneRowKeepsLinked(db: Db, db': Db, id: int)
    requires Linked(db) && id in db.payments
    requires db'.payments.Keys == db.payments.Keys && db'.subscriptions.Keys == db.subscriptions.Keys
    requires db'.plans == db.plans && db'.nextPayment == db.nextPayment && db'.nextSubscription == db.nextSubscription
    requires db'.payments[id].subscriptionId == db.payments[id].subscriptionId
    requires forall p | p in db.payments && p != id :: db'.payments[p] == db.payments[p]
    requires var own := db.payments[id].subscriptionId;
             forall s | s in db.subscriptions && Some(s) != own :: db'.subscriptions[s] == db.subscriptions[s]
    requires PaymentLinked(db', id)
    requires DatesMatchStatus(db'.subscriptions[db.payments[id].subscriptionId.value])
    ensures Linked(db')
  {
    forall s | s in db'.subscriptions ensures SubscriptionLinked(db', s) {
      assert SubscriptionLinked(db, s);
      var p :| Owns(db, p, s);
      assert Owns(db', p, s);
    }
    forall p | p in db'.payments ensures PaymentLinked(db', p) {
      assert PaymentLinked(db, p);
      if p != id && db.payments[p].subscriptionId == db.payments[id].subscriptionId {
        assert Owns(db, p, db.payments[p].subscriptionId.value) && Owns(db, id, db.payments[p].subscriptionId.value);
      }
    }
    forall p, q, s | Owns(db', p, s) && Owns(db', q, s) ensures p == q {
      assert Owns(db, p, s) && Owns(db, q, s);
    }
  }

  /** Main result: lock step in every reachable state. */
  lemma {:induction false} AlwaysLinked(plans: map<int, Plan>, bots: map<int, Bot>, ops: seq<Operation>)
    ensures Linked(After(Start(plans, bots), ops))
  {
    if ops == [] {
    } else {
      AlwaysLinked(plans, bots, Init(ops));
      ApplyKeepsLinked(After(Start(plans, bots), Init(ops)), Last(ops));
    }
  }

  lemma {:induction false} RunKeepsLinked(db: Db, ops: seq<Operation>)
    requires Linked(db)
    ensures Linked(After(db, ops))
  {
    if ops == [] {
    } else {
      RunKeepsLinked(db, Init(ops));
      ApplyKeepsLinked(After(db, Init(ops)), Last(ops));
    }
  }

  /** A review is final: over any run, a payment that is not in review never changes again. */
  lemma {:induction false} ReviewIsFinal(db: Db, ops: seq<Operation>, id: int)
    requires id in db.payments && db.payments[id].status != InReview && id < db.nextPayment
    ensures id in After(db, ops).payments && After(db, ops).payments[id] == db.payments[id]
    ensures db.nextPayment <= After(db, ops).nextPayment
  {
    if ops == [] {
    } else {
      ReviewIsFinal(db, Init(ops), id);
    }
  }

  /** So is the end of a subscription: one that has expired or was cancelled never changes again.
      This rests on the lock step, for an approval does not look at the status it overwrites. */
  lemma {:induction false} EndIsFinal(db: Db, ops: seq<Operation>, id: int)
    requires Linked(db) && id in db.subscriptions && db.subscriptions[id].status in {Expired, Cancelled}
    ensures id in After(db, ops).subscriptions && After(db, ops).subscriptions[id] == db.subscriptions[id]
  {
    if ops == [] {
    } else {
      var before, op := After(db, Init(ops)), Last(ops);
      EndIsFinal(db, Init(ops), id);
      RunKeepsLinked(db, Init(ops));
      assert SubscriptionLinked(before, id);
      if (op.Approve? || op.Reject?) && op.paymentId in before.payments {
        assert PaymentLinked(before, op.paymentId);
      }
    }
  }

  /** The paid period is honoured: an active subscription stays as it is until an expiry pass runs
      after its end, whatever else happens to it, to its payment or to its plan meanwhile. */
  lemma {:induction false} ActiveUntilItsEnd(db: Db, ops: seq<Operation>, id: int)
    requires Linked(db) && id in db.subscriptions && db.subscriptions[id].status == Active
    requires forall i | 0 <= i < |ops| && ops[i].ExpireDue? :: ops[i].now <= db.subscriptions[id].expiresAt.value
    ensures id in After(db, ops).subscriptions && After(db, ops).subscriptions[id] == db.subscriptions[id]
  {
    assert SubscriptionLinked(db, id);
    if ops == [] {
    } else {
      var before, op := After(db, Init(ops)), Last(ops);
      ActiveUntilItsEnd(db, Init(ops), id);
      RunKeepsLinked(db, Init(ops));
      assert ops[|ops| - 1] == op && SubscriptionLinked(before, id);
      if (op.Approve? || op.Reject?) && op.paymentId in before.payments {
        assert PaymentLinked(before, op.paymentId);
      }
    }
  }

  /** A review stays on record: over any later run the payment names who decided, when, and why. */
  lemma ReviewRecorded(db: Db, op: Operation, ops: seq<Operation>)
    requires Linked(db) && (op.Approve? || op.Reject?) && Refusal(db, op).None?
    ensures var payments := After(Apply(db, op), ops).payments;
            && op.paymentId in payments
            && var payment := payments[op.paymentId];
               && payment.status == (if op.Approve? then Approved else Rejected)
               && payment.reviewedBy == Some(op.adminId) && payment.reviewedAt == Some(op.now)
               && (op.Reject? ==> payment.rejectReason == op.reason)
               && payment.amount == db.payments[op.paymentId].amount
  {
    assert PaymentLinked(db, op.paymentId);
    ReviewIsFinal(Apply(db, op), ops, op.paymentId);
  }

  /** What an approval is worth: the subscription is active from then on, through any run, until an
      expiry pass comes more than the plan's number of days later, and that pass ends it. */
  lemma ApprovalGrantsPlanDuration(db: Db, paymentId: int, adminId: int, now: int, ops: seq<Operation>, t: int)
    requires Linked(db) && Refusal(db, Approve(paymentId, adminId, now)).None?
    requires var end := now + 86400 * db.plans[db.payments[paymentId].planId].durationDays;
             forall i | 0 <= i < |ops| && ops[i].ExpireDue? :: ops[i].now <= end
    ensures var payment := db.payments[paymentId];
            var end := now + 86400 * db.plans[payment.planId].durationDays;
            var id := payment.subscriptionId.value;
            var db' := After(Apply(db, Approve(paymentId, adminId, now)), ops);
            && id in db'.subscriptions
            && db'.subscriptions[id] == Subscription(payment.userId, payment.planId, Active, Some(now), Some(end))
            && Apply(db', ExpireDue(t)).subscriptions[id].status == (if t <= end then Active else Expired)
  {
    var approve := Approve(paymentId, adminId, now);
    assert PaymentLinked(db, paymentId);
    ApplyKeepsLinked(db, approve);
    ActiveUntilItsEnd(Apply(db, approve), ops, db.payments[paymentId].subscriptionId.value);
  }

  /** What billing last said about the userbots of a user: STOPPED at an approval of one of the
      user's payments, SUSPENDED at the expiry of one of the user's subscriptions. */
  ghost function BillingSays(db: Db, ops: seq<Operation>, userId: int): Option<Userbots.Status> {
    if ops == [] then None else
    var before, op := After(db, Init(ops)), Last(ops);
    if op.Approve? && Refusal(before, op).None? && before.payments[op.paymentId].userId == userId
    then Some(Userbots.Stopped)
    else if op.ExpireDue? && userId in Owners(before.subscriptions, DueIds(before.subscriptions, op.now))
    then Some(Userbots.Suspended)
    else BillingSays(db, Init(ops), userId)
  }

  /** No other part of the platform changes or removes this userbot; what it does to others is open. */
  ghost predicate LeftToBilling(db: Db, ops: seq<Operation>, b: int) {
    if ops == [] then b in db.bots else
    var before, op := After(db, Init(ops)), Last(ops);
    && LeftToBilling(db, Init(ops), b)
    && (op.OtherBotWrites? ==> b in op.bots && b in before.bots && op.bots[b] == before.bots[b])
  }

  /** As far as nobody else writes to it, a userbot follows the latest such word, and no purchase,
      rejection or plan edit and nothing that concerns another user touches it. */
  lemma {:induction false} BotsFollowBilling(db: Db, ops: seq<Operation>, b: int)
    requires Linked(db) && b in db.bots && LeftToBilling(db, ops, b)
    ensures b in After(db, ops).bots
    ensures After(db, ops).bots[b] == match BillingSays(db, ops, db.bots[b].userId)
                                      case None => db.bots[b]
                                      case Some(status) => db.bots[b].(status := status)
  {
    if ops == [] {
    } else {
      var before, op := After(db, Init(ops)), Last(ops);
      BotsFollowBilling(db, Init(ops), b);
      RunKeepsLinked(db, Init(ops));
      if op.Approve? && Refusal(before, op).None? {
        assert PaymentLinked(before, op.paymentId);
      }
    }
  }

  /** `get_by_reference` asks for one row or none: in every reachable state no two payments share
      a reference, and none still has the placeholder. */
  lemma ReferenceIdentifiesPayment(db: Db, p: int, q: int)
    requires Linked(db) && p in db.payments && q in db.payments
    ensures db.payments[p].reference == db.payments[q].reference <==> p == q
    ensures db.payments[p].reference != PLACEHOLDER
  {
    assert PaymentLinked(db, p) && PaymentLinked(db, q);
    ReferencesDistinct(p, q);
  }

  // ----- When an operation goes through -----

  /** A purchase, case by case: an unknown plan is not found; an inactive plan is a conflict, and so is
      an active subscription of the same user; two of them make the query for it raise. Pending
      subscriptions and those of other users play no part. */
  lemma PurchaseOutcome(db: Db, userId: int, planId: int)
    ensures var outcome := Refusal(db, Purchase(userId, planId));
            && (planId !in db.plans ==> outcome == Some(NotFound))
            && (planId in db.plans && !db.plans[planId].isActive ==> outcome == Some(Conflict))
            && (planId in db.plans && db.plans[planId].isActive ==>
                  var active := set s | s in db.subscriptions && db.subscriptions[s].userId == userId
                                     && db.subscriptions[s].status == Active;
                  outcome == if |active| == 0 then None
                             else if |active| == 1 then Some(Conflict) else Some(MultipleRows))
  {
    var active := set s | s in db.subscriptions && db.subscriptions[s].userId == userId
                       && db.subscriptions[s].status == Active;
    assert active == ActiveIds(db.subscriptions, userId);
  }

  /** What a purchase adds: a pending subscription without dates and a payment in review, both of this
      user and plan, and the payment refers to the subscription, by id, and carries the price. */
  lemma PurchaseAdds(db: Db, userId: int, planId: int)
    requires Refusal(db, Purchase(userId, planId)) == None
    ensures planId in db.plans
    ensures var db', reference := Apply(db, Purchase(userId, planId)), Reference(db.nextPayment);
            && db'.subscriptions == db.subscriptions[db.nextSubscription :=
                                                       Subscription(userId, planId, Pending, None, None)]
            && db'.payments == db.payments[db.nextPayment :=
                                             Payment(reference, userId, planId, Some(db.nextSubscription),
                                                     db.plans[planId].price, InReview, None, None, None)]
            && db'.bots == db.bots && db'.plans == db.plans
  {
  }

  /** In every reachable state a review goes through exactly when its payment is still in review; a
      missing one is not found, and a reviewed one is a conflict. */
  lemma ReviewOutcome(db: Db, op: Operation)
    requires Linked(db) && (op.Approve? || op.Reject?)
    ensures Refusal(db, op) ==
              if op.paymentId !in db.payments then Some(NotFound)
              else if db.payments[op.paymentId].status == InReview then None else Some(Conflict)
  {
    assert op.paymentId in db.payments ==> PaymentLinked(db, op.paymentId);
  }

  // ----- Money -----

  /** The sum of the amounts of the payments in one status, with ids below `bound`. */
  ghost function Total(payments: map<int, Payment>, status: PaymentStatus, bound: nat): int {
    if bound == 0 then 0 else
    Total(payments, status, bound - 1)
    + (if bound - 1 in payments && payments[bound - 1].status == status then payments[bound - 1].amount else 0)
  }

  /** What the accepted purchases of a run cost, each at the price of its own moment. */
  ghost function Purchased(db: Db, ops: seq<Operation>): int {
    if ops == [] then 0 else
    var before := After(db, Init(ops));
    Purchased(db, Init(ops))
    + (if Last(ops).Purchase? && Refusal(before, Last(ops)).None? then before.plans[Last(ops).planId].price else 0)
  }

  ghost function AllTotals(db: Db): int {
    Total(db.payments, InReview, db.nextPayment) + Total(db.payments, Approved, db.nextPayment)
    + Total(db.payments, Rejected, db.nextPayment)
  }

  lemma {:induction false} TotalOfUpdate(payments: map<int, Payment>, status: PaymentStatus, bound: nat, id: nat,
                                         payment: Payment)
    requires id in payments && payment.amount == payments[id].amount
    ensures Total(payments[id := payment], status, bound) == Total(payments, status, bound)
              + (if id < bound && payment.status == status then payment.amount else 0)
              - (if id < bound && payments[id].status == status then payment.amount else 0)
  {
    if bound == 0 {
    } else {
      TotalOfUpdate(payments, status, bound - 1, id, payment);
    }
  }

  lemma {:induction false} TotalOfOthers(payments: map<int, Payment>, status: PaymentStatus, bound: nat, id: nat,
                                         payment: Payment)
    requires id >= bound
    ensures Total(payments[id := payment], status, bound) == Total(payments, status, bound)
  {
    if bound == 0 {
    } else {
      TotalOfOthers(payments, status, bound - 1, id, payment);
    }
  }

  lemma ReviewKeepsTotals(db: Db, id: nat, payment: Payment)
    requires id in db.payments && id < db.nextPayment && payment.amount == db.payments[id].amount
    ensures AllTotals(db.(payments := db.payments[id := payment])) == AllTotals(db)
  {
    TotalOfUpdate(db.payments, InReview, db.nextPayment, id, payment);
    TotalOfUpdate(db.payments, Approved, db.nextPayment, id, payment);
    TotalOfUpdate(db.payments, Rejected, db.nextPayment, id, payment);
  }

  lemma NewPaymentAddsToTotals(db: Db, payment: Payment)
    ensures var db' := db.(payments := db.payments[db.nextPayment := payment], nextPayment := db.nextPayment + 1);
            AllTotals(db') == AllTotals(db) + payment.amount
  {
    TotalOfOthers(db.payments, InReview, db.nextPayment, db.nextPayment, payment);
    TotalOfOthers(db.payments, Approved, db.nextPayment, db.nextPayment, payment);
    TotalOfOthers(db.payments, Rejected, db.nextPayment, db.nextPayment, payment);
  }

  /** Conservation: over any run, with plans repriced at any time, what was purchased is what is
      in review, approved or rejected. */
  lemma {:induction false} MoneyConserved(plans: map<int, Plan>, bots: map<int, Bot>, ops: seq<Operation>)
    ensures AllTotals(After(Start(plans, bots), ops)) == Purchased(Start(plans, bots), ops)
  {
    if ops == [] {
      assert AllTotals(Start(plans, bots)) == 0;
    } else {
      MoneyConserved(plans, bots, Init(ops));
      AlwaysLinked(plans, bots, Init(ops));
      StepConservesMoney(After(Start(plans, bots), Init(ops)), Last(ops));
    }
  }

  lemma StepConservesMoney(db: Db, op: Operation)
    requires Linked(db)
    ensures AllTotals(Apply(db, op)) == AllTotals(db)
              + (if op.Purchase? && Refusal(db, op).None? then db.plans[op.planId].price else 0)
  {
    if Refusal(db, op).None? {
      var db' := Effect(db, op);
      match op
      case Purchase(_, _) => NewPaymentAddsToTotals(db, db'.payments[db.nextPayment]);
      case Approve(id, _, _) =>
        assert PaymentLinked(db, id);
        ReviewKeepsTotals(db, id, db'.payments[id]);
      case Reject(id, _, _, _) =>
        assert PaymentLinked(db, id);
        ReviewKeepsTotals(db, id, db'.payments[id]);
      case _ =>
    }
  }

  // ----- How many subscriptions a user can have at once -----

  ghost function OpenIds(db: Db, userId: int): set<int> {
    set id | id in db.subscriptions && db.subscriptions[id].userId == userId
      && db.subscriptions[id].status in {Pending, Active}
  }

  ghost predicate HasActive(db: Db, userId: int) {
    ActiveIds(db.subscriptions, userId) != {}
  }

  lemma OpenNeverGrowsWhileActive(db: Db, op: Operation, userId: int)
    requires Linked(db) && HasActive(db, userId)
    ensures OpenIds(Apply(db, op), userId) <= OpenIds(db, userId)
  {
    var db' := Apply(db, op);
    forall id | id in OpenIds(db', userId) ensures id in OpenIds(db, userId) {
      match op
      case Approve(p, _, _) => assert p in db.payments ==> PaymentLinked(db, p);
      case _ =>
    }
  }

  /** Over any run throughout which the user has an active subscription, the set of pending and
      active ones only shrinks. So if the subscription just activated is the only one of them,
      `active_for_user` finds exactly one row at every moment until it expires. */
  lemma {:induction false} SingleSubscriptionStaysSingle(db: Db, ops: seq<Operation>, userId: int)
    requires Linked(db)
    requires forall k | 0 <= k <= |ops| :: HasActive(After(db, ops[..k]), userId)
    ensures OpenIds(After(db, ops), userId) <= OpenIds(db, userId)
    ensures |OpenIds(After(db, ops), userId)| <= |OpenIds(db, userId)|
    ensures |OpenIds(db, userId)| == 1 ==>
              exists id :: ActiveForUser(After(db, ops).subscriptions, userId) == Ok(Some(id))
                && OpenIds(db, userId) == {id}
  {
    var db' := After(db, ops);
    assert ops[..|ops|] == ops;
    if ops == [] {
    } else {
      var init := Init(ops);
      assert forall k | 0 <= k <= |init| :: init[..k] == ops[..k];
      SingleSubscriptionStaysSingle(db, init, userId);
      RunKeepsLinked(db, init);
      assert ops[..|ops| - 1] == init;
      OpenNeverGrowsWhileActive(After(db, init), Last(ops), userId);
    }
    SubsetCardinality(OpenIds(db', userId), OpenIds(db, userId));
    if |OpenIds(db, userId)| == 1 {
      var active := ActiveIds(db'.subscriptions, userId);
      assert active <= OpenIds(db', userId);
      SubsetCardinality(active, OpenIds(db, userId));
      var id := Pick(active);
      OnlyElement(OpenIds(db, userId), id);
      assert active == {id};
    }
  }

  ghost predicate AtMostOneActive(db: Db) {
    forall s, t | s in db.subscriptions && t in db.subscriptions
               && db.subscriptions[s].status == Active && db.subscriptions[t].status == Active
               && db.subscriptions[s].userId == db.subscriptions[t].userId :: s == t
  }

  /** Exactly when an operation breaks "one active subscription per user": when it approves a
      payment of a user who has an active one already. Nothing in `approve_payment` checks that. */
  lemma SecondActiveIff(db: Db, op: Operation)
    requires Linked(db) && AtMostOneActive(db)
    ensures AtMostOneActive(Apply(db, op)) <==>
              !(op.Approve? && Refusal(db, op).None? && HasActive(db, db.payments[op.paymentId].userId))
  {
    var db' := Apply(db, op);
    if op.Approve? && Refusal(db, op).None? {
      var payment := db.payments[op.paymentId];
      assert PaymentLinked(db, op.paymentId);
      if HasActive(db, payment.userId) {
        var id := Pick(ActiveIds(db.subscriptions, payment.userId));
        assert id != payment.subscriptionId.value;
        assert db'.subscriptions[id].status == Active
                 && db'.subscriptions[payment.subscriptionId.value].status == Active;
      } else {
        forall s | s in db.subscriptions && db.subscriptions[s].userId == payment.userId
          ensures db.subscriptions[s].status != Active {
          assert db.subscriptions[s].status == Active ==> s in ActiveIds(db.subscriptions, payment.userId);
        }
      }
    }
  }

  /** The shortest such run: two purchases before either is reviewed, then two approvals. From
      then on `active_for_user` raises for that user. */
  lemma TwoPurchasesTwoActive(plan: Plan, bots: map<int, Bot>, userId: int, adminId: int, now: int)
    requires plan.isActive
    ensures var ops := [Purchase(userId, 1), Purchase(userId, 1), Approve(1, adminId, now), Approve(2, adminId, now)];
            var db := After(Start(map[1 := plan], bots), ops);
            !AtMostOneActive(db) && ActiveForUser(db.subscriptions, userId) == Err(MultipleRows)
  {
    var p, a, b := Purchase(userId, 1), Approve(1, adminId, now), Approve(2, adminId, now);
    var db := Start(map[1 := plan], bots);
    FourSteps(db, p, p, a, b);
    PurchaseWithoutActive(db, userId, 1);
    PurchaseWithoutActive(Apply(db, p), userId, 1);
    TwoApprovals(Apply(Apply(db, p), p), a, b, userId);
  }

  /** Pending subscriptions do not stand in the way of another purchase. */
  lemma PurchaseWithoutActive(db: Db, userId: int, planId: int)
    requires planId in db.plans && db.plans[planId].isActive
    requires forall s | s in db.subscriptions :: db.subscriptions[s].status != Active
    ensures var db' := Apply(db, Purchase(userId, planId));
            && db'.plans == db.plans
            && db'.nextPayment == db.nextPayment + 1 && db'.nextSubscription == db.nextSubscription + 1
            && db'.subscriptions ==
                 db.subscriptions[db.nextSubscription := Subscription(userId, planId, Pending, None, None)]
            && (exists payment: Payment :: db'.payments == db.payments[db.nextPayment := payment]
                 && payment.status == InReview
                  && payment.planId == planId && payment.subscriptionId == Some(db.nextSubscription))
  {
    assert ActiveIds(db.subscriptions, userId) == {} by {
      assert forall id :: id !in ActiveIds(db.subscriptions, userId);
    }
    var payment := Effect(db, Purchase(userId, planId)).payments[db.nextPayment];
    assert Apply(db, Purchase(userId, planId)).payments == db.payments[db.nextPayment := payment];
  }

  lemma TwoApprovals(db: Db, a: Operation, b: Operation, userId: int)
    requires a.Approve? && b.Approve? && a.paymentId == 1 && b.paymentId == 2
    requires 1 in db.plans && {1, 2} == db.payments.Keys == db.subscriptions.Keys
    requires forall i | i in {1, 2} :: db.payments[i].status == InReview && db.payments[i].planId == 1
               && db.payments[i].subscriptionId == Some(i) && db.subscriptions[i].userId == userId
    ensures !AtMostOneActive(Apply(Apply(db, a), b))
    ensures ActiveForUser(Apply(Apply(db, a), b).subscriptions, userId) == Err(MultipleRows)
  {
    var db' := Apply(Apply(db, a), b);
    assert db'.subscriptions[1].status == Active && db'.subscriptions[2].status == Active;
    assert ActiveIds(db'.subscriptions, userId) == {1, 2};
  }

  lemma FourSteps(db: Db, a: Operation, b: Operation, c: Operation, d: Operation)
    ensures After(db, [a, b, c, d]) == Apply(Apply(Apply(Apply(db, a), b), c), d)
  {
    assert [a, b, c, d] == [a, b, c] + [d] && [a, b, c] == [a, b] + [c] && [a, b] == [a] + [b] && [a] == [] + [a];
    NextStep(db, [a, b, c], d);
    NextStep(db, [a, b], c);
    NextStep(db, [a], b);
    NextStep(db, [], a);
  }

  lemma NextStep(db: Db, ops: seq<Operation>, op: Operation)
    ensures After(db, ops + [op]) == Apply(After(db, ops), op)
  {
    InitOfAppend(ops, op);
  }

  // ----- The expiry pass -----

  /** After a pass no active subscription is past due; the rows it changed are exactly those that
      were, and only in their status; the userbots it suspended are exactly those of their
      owners, whether or not the owner has another active subscription; nothing else changed,
      and a second pass at the same time finds nothing. */
  lemma ExpiryPass(db: Db, now: int)
    ensures var db' := Apply(db, ExpireDue(now));
            && DueIds(db'.subscriptions, now) == {}
            && Apply(db', ExpireDue(now)) == db'
            && db'.subscriptions.Keys == db.subscriptions.Keys && db'.bots.Keys == db.bots.Keys
            && (forall s | s in db.subscriptions ::
                  && db'.subscriptions[s].(status := db.subscriptions[s].status) == db.subscriptions[s]
                  && (db'.subscriptions[s] != db.subscriptions[s] <==> s in DueIds(db.subscriptions, now)))
            && (forall b | b in db.bots ::
                  if exists s :: s in DueIds(db.subscriptions, now) && db.subscriptions[s].userId == db.bots[b].userId
                  then db'.bots[b] == db.bots[b].(status := Userbots.Suspended)
                  else db'.bots[b] == db.bots[b])
            && db' == db.(subscriptions := db'.subscriptions, bots := db'.bots)
  {
    var db' := Apply(db, ExpireDue(now));
    assert DueIds(db'.subscriptions, now) == {};
    assert Owners(db'.subscriptions, {}) == {};
    assert WithBotStatus(db'.bots, {}, Userbots.Suspended) == db'.bots;
  }
}
