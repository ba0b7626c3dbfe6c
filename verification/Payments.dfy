/** Subscriptions and payments: submission by the bot, decision by an admin, expiry by the
    scheduler (services/telegram_bot/repository.py, services/admin_panel/repository.py). */
module Payments {
  import opened Common

  /** Withheld is the subscription status that the source also calls "rejected". */
  datatype SubscriptionStatus = Pending | Active | Expired | Withheld

  datatype PaymentStatus = Submitted | Approved | Rejected

  datatype Subscription = Subscription(user: int, plan: int, status: SubscriptionStatus,
                                       startsAt: Option<int>, endsAt: Option<int>, reminded: bool)

  datatype Payment = Payment(user: int, plan: int, network: string, toAddress: string, txid: string,
                             amountExpected: real, status: PaymentStatus, decidedAt: Option<int>,
                             decidedBy: Option<int>)

  datatype Plan = Plan(days: nat, price: real)

  datatype RepositoryError =
    | UnsupportedNetwork | EmptyTxid | EmptyAddress | DuplicateTransaction | NotSubmitted | NoPendingSubscription

  predicate IsSpace(c: char) {
    c == ' ' || '\t' <= c <= '\r'
  }

  function TrimLeft(s: string): string {
    if s != [] && IsSpace(s[0]) then TrimLeft(s[1..]) else s
  }

  function TrimRight(s: string): string {
    if s != [] && IsSpace(s[|s| - 1]) then TrimRight(s[..|s| - 1]) else s
  }

  /** Python's str.strip on ASCII white space. */
  function Strip(s: string): string {
    TrimRight(TrimLeft(s))
  }

  /** Exactly the white space at both ends is gone. */
  lemma StripsBothEnds(s: string)
    ensures var t := Strip(s);
            && (t != [] ==> !IsSpace(t[0]) && !IsSpace(t[|t| - 1]))
            && exists i, j :: 0 <= i <= j <= |s| && t == s[i..j]
                              && forall k :: 0 <= k < |s| && !(i <= k < j) ==> IsSpace(s[k])
  {
    var i := LeftEnd(s);
    var t := TrimLeft(s);
    var j := RightEnd(t);
    assert Strip(s) == s[i..i + j];
    forall k | 0 <= k < |s| && !(i <= k < i + j)
      ensures IsSpace(s[k])
    {
      if k >= i {
        assert t[k - i] == s[k];
      }
    }
  }

  lemma {:induction false} LeftEnd(s: string) returns (i: nat)
    ensures i <= |s| && TrimLeft(s) == s[i..] && (i < |s| ==> !IsSpace(s[i]))
    ensures forall k :: 0 <= k < i ==> IsSpace(s[k])
  {
    i := 0;
    if s != [] && IsSpace(s[0]) {
      var rest := LeftEnd(s[1..]);
      i := rest + 1;
      assert forall k :: 1 <= k < i ==> s[k] == s[1..][k - 1];
    }
  }

  lemma {:induction false} RightEnd(s: string) returns (j: nat)
    ensures j <= |s| && TrimRight(s) == s[..j] && (j > 0 ==> !IsSpace(s[j - 1]))
    ensures forall k :: j <= k < |s| ==> IsSpace(s[k])
  {
    j := |s|;
    if s != [] && IsSpace(s[|s| - 1]) {
      j := RightEnd(s[..|s| - 1]);
      assert forall k :: j <= k < |s| - 1 ==> s[k] == s[..|s| - 1][k];
    }
  }

  const NETWORKS := {"TRC20", "BEP20", "POLYGON"}

  const SECONDS_PER_DAY := 86400

  // ---------------------------------------------------------------- counting

  datatype Tag<S> = Tag(user: int, plan: int, status: S)

  function SubscriptionTags(s: seq<Subscription>): (r: seq<Tag<SubscriptionStatus>>)
    ensures |r| == |s|
  {
    seq(|s|, i requires 0 <= i < |s| => Tag(s[i].user, s[i].plan, s[i].status))
  }

  function PaymentTags(p: seq<Payment>): (r: seq<Tag<PaymentStatus>>)
    ensures |r| == |p|
  {
    seq(|p|, i requires 0 <= i < |p| => Tag(p[i].user, p[i].plan, p[i].status))
  }

  /** How many of a user's subscriptions to a plan have a status. */
  ghost function Subscriptions(s: seq<Subscription>, user: int, plan: int, status: SubscriptionStatus): nat {
    multiset(SubscriptionTags(s))[Tag(user, plan, status)]
  }

  ghost function PaymentCount(p: seq<Payment>, user: int, plan: int, status: PaymentStatus): nat {
    multiset(PaymentTags(p))[Tag(user, plan, status)]
  }

  /** The books of one user and plan: every payment has exactly one subscription in the
      corresponding status. */
  ghost predicate Matched(s: seq<Subscription>, p: seq<Payment>, user: int, plan: int) {
    && Subscriptions(s, user, plan, Pending) == PaymentCount(p, user, plan, Submitted)
    && Subscriptions(s, user, plan, Active) + Subscriptions(s, user, plan, Expired)
       == PaymentCount(p, user, plan, Approved)
    && Subscriptions(s, user, plan, Withheld) == PaymentCount(p, user, plan, Rejected)
  }

  /** Replacing a row takes one from its old count and adds one to its new count. */
  lemma SubscriptionMoves(s: seq<Subscription>, k: nat, x: Subscription, user: int, plan: int,
                          status: SubscriptionStatus)
    requires k < |s|
    ensures var tag := Tag(user, plan, status);
            Subscriptions(s[k := x], user, plan, status)
            == Subscriptions(s, user, plan, status)
               - (if Tag(s[k].user, s[k].plan, s[k].status) == tag then 1 else 0)
               + (if Tag(x.user, x.plan, x.status) == tag then 1 else 0)
  {
    var a, b := Tag(s[k].user, s[k].plan, s[k].status), Tag(x.user, x.plan, x.status);
    assert SubscriptionTags(s)[k] == a;
    assert SubscriptionTags(s[k := x]) == SubscriptionTags(s)[k := b];
    assert multiset(SubscriptionTags(s)[k := b]) == multiset(SubscriptionTags(s)) - multiset{a} + multiset{b};
  }

  lemma PaymentMoves(p: seq<Payment>, k: nat, x: Payment, user: int, plan: int, status: PaymentStatus)
    requires k < |p|
    ensures var tag := Tag(user, plan, status);
            PaymentCount(p[k := x], user, plan, status)
            == PaymentCount(p, user, plan, status)
               - (if Tag(p[k].user, p[k].plan, p[k].status) == tag then 1 else 0)
               + (if Tag(x.user, x.plan, x.status) == tag then 1 else 0)
  {
    var a, b := Tag(p[k].user, p[k].plan, p[k].status), Tag(x.user, x.plan, x.status);
    assert PaymentTags(p)[k] == a;
    assert PaymentTags(p[k := x]) == PaymentTags(p)[k := b];
    assert multiset(PaymentTags(p)[k := b]) == multiset(PaymentTags(p)) - multiset{a} + multiset{b};
  }

  lemma RowsAppend(s: seq<Subscription>, x: Subscription, p: seq<Payment>, y: Payment)
    ensures multiset(SubscriptionTags(s + [x]))
            == multiset(SubscriptionTags(s)) + multiset{Tag(x.user, x.plan, x.status)}
    ensures multiset(PaymentTags(p + [y])) == multiset(PaymentTags(p)) + multiset{Tag(y.user, y.plan, y.status)}
  {
    assert SubscriptionTags(s + [x]) == SubscriptionTags(s) + [Tag(x.user, x.plan, x.status)];
    assert PaymentTags(p + [y]) == PaymentTags(p) + [Tag(y.user, y.plan, y.status)];
  }

  predicate PendingFor(s: Subscription, user: int, plan: int) {
    s.user == user && s.plan == plan && s.status == Pending
  }

  /** A submitted payment has a pending subscription of its user and plan. */
  lemma SubmittedHasPending(s: seq<Subscription>, p: seq<Payment>, k: nat)
    requires k < |p| && p[k].status == Submitted && Matched(s, p, p[k].user, p[k].plan)
    ensures exists i :: 0 <= i < |s| && PendingFor(s[i], p[k].user, p[k].plan)
  {
    var pay, tag := Tag(p[k].user, p[k].plan, Submitted), Tag(p[k].user, p[k].plan, Pending);
    assert PaymentTags(p)[k] == pay;
    assert pay in multiset(PaymentTags(p));
    assert tag in multiset(SubscriptionTags(s));
    var i :| 0 <= i < |s| && SubscriptionTags(s)[i] == tag;
    assert PendingFor(s[i], p[k].user, p[k].plan);
  }

  ghost predicate AllMatched(s: seq<Subscription>, p: seq<Payment>) {
    forall user, plan :: Matched(s, p, user, plan)
  }

  /** A submission opens one subscription for one payment. */
  lemma SubmissionKeepsMatched(s: seq<Subscription>, x: Subscription, p: seq<Payment>, y: Payment)
    requires AllMatched(s, p)
    requires x.user == y.user && x.plan == y.plan && x.status == Pending && y.status == Submitted
    ensures AllMatched(s + [x], p + [y])
  {
    RowsAppend(s, x, p, y);
    forall user, plan
      ensures Matched(s + [x], p + [y], user, plan)
    {
      assert Matched(s, p, user, plan);
    }
  }

  /** Moving a payment and its subscription together keeps the books matched. */
  lemma DecisionKeepsMatched(s: seq<Subscription>, j: nat, x: Subscription, p: seq<Payment>, k: nat, y: Payment)
    requires AllMatched(s, p) && k < |p| && j < |s|
    requires p[k].status == Submitted && PendingFor(s[j], p[k].user, p[k].plan)
    requires x.user == y.user == p[k].user && x.plan == y.plan == p[k].plan
    requires (y.status == Approved && x.status == Active) || (y.status == Rejected && x.status == Withheld)
    ensures AllMatched(s[j := x], p[k := y])
  {
    var after, decided := s[j := x], p[k := y];
    forall user, plan
      ensures Matched(after, decided, user, plan)
    {
      assert Matched(s, p, user, plan);
      DecisionMoves(s, j, x, p, k, y, user, plan);
    }
  }

  lemma DecisionMoves(s: seq<Subscription>, j: nat, x: Subscription, p: seq<Payment>, k: nat, y: Payment,
                      user: int, plan: int)
    requires Matched(s, p, user, plan) && k < |p| && j < |s|
    requires p[k].status == Submitted && PendingFor(s[j], p[k].user, p[k].plan)
    requires x.user == y.user == p[k].user && x.plan == y.plan == p[k].plan
    requires (y.status == Approved && x.status == Active) || (y.status == Rejected && x.status == Withheld)
    ensures Matched(s[j := x], p[k := y], user, plan)
  {
    hide Subscriptions, PaymentCount;
    SubscriptionMoves(s, j, x, user, plan, Pending);
    SubscriptionMoves(s, j, x, user, plan, Active);
    SubscriptionMoves(s, j, x, user, plan, Expired);
    SubscriptionMoves(s, j, x, user, plan, Withheld);
    PaymentMoves(p, k, y, user, plan, Submitted);
    PaymentMoves(p, k, y, user, plan, Approved);
    PaymentMoves(p, k, y, user, plan, Rejected);
  }

  // ---------------------------------------------------------------- the store

  class Store {
    const plans: map<int, Plan>
    var subscriptions: seq<Subscription>
    var payments: seq<Payment>

    ghost predicate Valid()
      reads this
    {
      && AllMatched(subscriptions, payments)
      && (forall i :: 0 <= i < |subscriptions| ==>
            && subscriptions[i].plan in plans
            && (subscriptions[i].status == Active ==> subscriptions[i].endsAt.Some?))
      && (forall i, j :: 0 <= i < j < |payments| ==>
            payments[i].network != payments[j].network || payments[i].txid != payments[j].txid)
    }

    constructor (plans: map<int, Plan>)
      ensures Valid() && subscriptions == [] && payments == [] && this.plans == plans
    {
      this.plans, subscriptions, payments := plans, [], [];
    }

    /** A pending subscription and a submitted payment, stored together or not at all. */
    method CreatePendingSubscriptionAndPayment(user: int, plan: int, network: string, toAddress: string, txid: string)
      returns (r: Result<(Subscription, Payment), RepositoryError>)
      requires Valid() && plan in plans
      modifies this
      ensures Valid()
      ensures var clean := Strip(txid);
              if network !in {"TRC20", "BEP20", "POLYGON"} then r == Failure(UnsupportedNetwork)
              else if clean == "" then r == Failure(EmptyTxid)
              else if Strip(toAddress) == "" then r == Failure(EmptyAddress)
              else if exists i :: 0 <= i < |old(payments)| && old(payments)[i].network == network
                                  && old(payments)[i].txid == clean
              then r == Failure(DuplicateTransaction)
              else r == Success((Subscription(user, plan, Pending, None, None, false),
                                 Payment(user, plan, network, Strip(toAddress), clean, plans[plan].price, Submitted,
                                         None, None)))
      ensures r.Failure? ==> subscriptions == old(subscriptions) && payments == old(payments)
      ensures r.Success? ==> && subscriptions == old(subscriptions) + [r.value.0]
                             && payments == old(payments) + [r.value.1]
    {
      hide AllMatched, Strip;
      if network !in NETWORKS {
        return Failure(UnsupportedNetwork);
      }
      var clean := Strip(txid);
      if clean == "" {
        return Failure(EmptyTxid);
      }
      if Strip(toAddress) == "" {
        return Failure(EmptyAddress);
      }
      if exists i :: 0 <= i < |payments| && payments[i].network == network && payments[i].txid == clean {
        return Failure(DuplicateTransaction);
      }
      var subscription := Subscription(user, plan, Pending, None, None, false);
      var payment := Payment(user, plan, network, Strip(toAddress), clean, plans[plan].price, Submitted, None, None);
      SubmissionKeepsMatched(subscriptions, subscription, payments, payment);
      subscriptions, payments := subscriptions + [subscription], payments + [payment];
      return Success((subscription, payment));
    }

    /** The most recently created pending subscription of a user and plan. */
    method LatestPending(user: int, plan: int) returns (r: Option<nat>)
      ensures match r
              case Some(k) =>
                && k < |subscriptions| && PendingFor(subscriptions[k], user, plan)
                && forall i :: k < i < |subscriptions| ==> !PendingFor(subscriptions[i], user, plan)
              case None => forall i :: 0 <= i < |subscriptions| ==> !PendingFor(subscriptions[i], user, plan)
    {
      var n := |subscriptions|;
      while n > 0
        invariant 0 <= n <= |subscriptions|
        invariant forall i :: n <= i < |subscriptions| ==> !PendingFor(subscriptions[i], user, plan)
      {
        n := n - 1;
        if PendingFor(subscriptions[n], user, plan) {
          return Some(n);
        }
      }
      return None;
    }

    /** Approves exactly the submitted payments: a matching pending subscription always exists. */
    method ApprovePayment(k: nat, admin: int, now: int) returns (r: Result<nat, RepositoryError>)
      requires Valid() && k < |payments|
      modifies this
      ensures Valid()
      ensures old(payments)[k].status != Submitted ==> r == Failure(NotSubmitted)
      ensures r.Failure? ==> subscriptions == old(subscriptions) && payments == old(payments)
      ensures old(payments)[k].status == Submitted ==>
                var p := old(payments)[k];
                && r.Success? && r.value < |old(subscriptions)|
                && payments == old(payments)[k := p.(status := Approved, decidedAt := Some(now),
                                                     decidedBy := Some(admin))]
                && PendingFor(old(subscriptions)[r.value], p.user, p.plan)
                && (forall i :: r.value < i < |old(subscriptions)| ==>
                      !PendingFor(old(subscriptions)[i], p.user, p.plan))
                && subscriptions == old(subscriptions)[r.value :=
                     Subscription(p.user, p.plan, Active, Some(now), Some(now + plans[p.plan].days * 24 * 60 * 60),
                                  false)]
    {
      hide Matched;
      var payment := payments[k];
      if payment.status != Submitted {
        return Failure(NotSubmitted);
      }
      var found := LatestPending(payment.user, payment.plan);
      assert Matched(subscriptions, payments, payment.user, payment.plan);
      SubmittedHasPending(subscriptions, payments, k);
      if found.None? {
        assert false;
        return Failure(NoPendingSubscription);
      }
      var j := found.value;
      var approved := payment.(status := Approved, decidedAt := Some(now), decidedBy := Some(admin));
      var active := subscriptions[j].(status := Active, startsAt := Some(now),
                                      endsAt := Some(now + plans[payment.plan].days * SECONDS_PER_DAY),
                                      reminded := false);
      DecisionKeepsMatched(subscriptions, j, active, payments, k, approved);
      payments, subscriptions := payments[k := approved], subscriptions[j := active];
      return Success(j);
    }

    /** Rejects exactly the submitted payments, and withholds the latest pending subscription. */
    method RejectPayment(k: nat, admin: int, now: int) returns (r: Result<nat, RepositoryError>)
      requires Valid() && k < |payments|
      modifies this
      ensures Valid()
      ensures old(payments)[k].status != Submitted ==> r == Failure(NotSubmitted)
      ensures r.Failure? ==> subscriptions == old(subscriptions) && payments == old(payments)
      ensures old(payments)[k].status == Submitted ==>
                var p := old(payments)[k];
                && r.Success? && r.value < |old(subscriptions)|
                && payments == old(payments)[k := p.(status := Rejected, decidedAt := Some(now),
                                                     decidedBy := Some(admin))]
                && PendingFor(old(subscriptions)[r.value], p.user, p.plan)
                && (forall i :: r.value < i < |old(subscriptions)| ==>
                      !PendingFor(old(subscriptions)[i], p.user, p.plan))
                && subscriptions == old(subscriptions)[r.value := old(subscriptions)[r.value].(status := Withheld)]
    {
      hide Matched;
      var payment := payments[k];
      if payment.status != Submitted {
        return Failure(NotSubmitted);
      }
      var found := LatestPending(payment.user, payment.plan);
      assert Matched(subscriptions, payments, payment.user, payment.plan);
      SubmittedHasPending(subscriptions, payments, k);
      var j := found.value;
      var rejected := payment.(status := Rejected, decidedAt := Some(now), decidedBy := Some(admin));
      var withheld := subscriptions[j].(status := Withheld);
      DecisionKeepsMatched(subscriptions, j, withheld, payments, k, rejected);
      payments, subscriptions := payments[k := rejected], subscriptions[j := withheld];
      return Success(j);
    }

    /** The scheduler expires every active subscription whose end has come, and no other. */
    method EnforceExpiry(now: int) returns (expired: nat)
      requires Valid()
      modifies this`subscriptions
      ensures Valid() && |subscriptions| == |old(subscriptions)|
      ensures forall i :: 0 <= i < |subscriptions| ==>
                var was := old(subscriptions)[i];
                && subscriptions[i] == was.(status := subscriptions[i].status)
                && (was.status == Active && was.endsAt.value <= now ==> subscriptions[i].status == Expired)
                && (was.status == Active && was.endsAt.value > now ==> subscriptions[i].status == Active)
                && (was.status != Active ==> subscriptions[i].status == was.status)
      ensures expired == |set i: nat | i < |subscriptions| && subscriptions[i].status != old(subscriptions)[i].status|
    {
      hide AllMatched;
      expired := 0;
      for i := 0 to |subscriptions|
        invariant Valid() && |subscriptions| == |old(subscriptions)|
        invariant forall j :: 0 <= j < i ==>
                    subscriptions[j] == if Due(old(subscriptions)[j], now)
                                        then old(subscriptions)[j].(status := Expired) else old(subscriptions)[j]
        invariant forall j :: i <= j < |subscriptions| ==> subscriptions[j] == old(subscriptions)[j]
        invariant expired == |Changed(old(subscriptions), subscriptions, i)|
      {
        var s := subscriptions[i];
        ghost var before := subscriptions;
        if Due(s, now) {
          ExpiryKeepsMatched(subscriptions, payments, i);
          subscriptions := subscriptions[i := s.(status := Expired)];
          expired := expired + 1;
        }
        OneMoreChanged(old(subscriptions), before, subscriptions, i);
      }
      assert Changed(old(subscriptions), subscriptions, |subscriptions|)
             == set i: nat | i < |subscriptions| && subscriptions[i].status != old(subscriptions)[i].status;
    }
  }

  predicate Due(s: Subscription, now: int) {
    s.status == Active && s.endsAt.Some? && s.endsAt.value <= now
  }

  /** Which of the first n rows have another status than before. */
  ghost function Changed(before: seq<Subscription>, after: seq<Subscription>, n: nat): set<nat>
    requires n <= |before| == |after|
  {
    set i: nat | i < n && after[i].status != before[i].status
  }

  lemma OneMoreChanged(start: seq<Subscription>, before: seq<Subscription>, after: seq<Subscription>, n: nat)
    requires n < |start| == |before| == |after| && forall i :: 0 <= i < n ==> before[i] == after[i]
    ensures |Changed(start, after, n + 1)|
            == |Changed(start, before, n)| + if after[n].status != start[n].status then 1 else 0
  {
    assert Changed(start, after, n + 1)
           == Changed(start, before, n) + if after[n].status != start[n].status then {n} else {};
  }

  lemma ExpiryKeepsMatched(s: seq<Subscription>, p: seq<Payment>, k: nat)
    requires k < |s| && s[k].status == Active
    requires AllMatched(s, p)
    ensures AllMatched(s[k := s[k].(status := Expired)], p)
  {
    hide Subscriptions, PaymentCount;
    var expired := s[k].(status := Expired);
    var after := s[k := expired];
    forall user, plan
      ensures Matched(after, p, user, plan)
    {
      assert Matched(s, p, user, plan);
      SubscriptionMoves(s, k, expired, user, plan, Pending);
      SubscriptionMoves(s, k, expired, user, plan, Active);
      SubscriptionMoves(s, k, expired, user, plan, Expired);
      SubscriptionMoves(s, k, expired, user, plan, Withheld);
    }
  }
}
