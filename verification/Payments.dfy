/** Payments, their attempts and the money counted on posts. Webhook transactions are split into their statements:
    several run at once, see only committed rows, and take a row lock when their conditional update matches a payment.
    Amounts are in minor units. */
module Payments {
  import opened Wrappers
  import opened Sums

  type PaymentId = nat
  type PostId = nat
  type AttemptId = nat
  type ProcId = nat

  datatype Status = PENDING | SUCCESS | FAILED | EXPIRED

  datatype Payment = Payment(
    postId: PostId, amount: int, status: Status, confirmedAt: Option<nat>, expiredAt: Option<nat>,
    lastAttempt: Option<AttemptId>)

  datatype Attempt = Attempt(paymentId: PaymentId, providerPaymentId: Option<string>, status: Status)

  /** Donations are accepted while the post is approved and not deleted. */
  datatype Post = Post(open: bool, currentAmount: int)

  datatype Stage = Checked | Inserted(attempt: AttemptId) | Locked(attempt: AttemptId)

  /** Requests and jobs in flight. */
  datatype Proc =
    | Checkout(paymentId: PaymentId)
    | Webhook(paymentId: PaymentId, verdict: Status, providerPaymentId: Option<string>, stage: Stage)
    | Cleanup(ids: set<PaymentId>)

  /** History of one payment, kept after its row is gone: how often it entered SUCCESS, how often a checkout write took
      it back, whether cleanup deleted it while SUCCESS, and whether its checkout write is still to come. */
  datatype Donation = Donation(
    postId: PostId, amount: int, entries: nat, resets: nat, lost: bool, checkoutDue: bool)

  datatype State = State(
    now: nat,
    payments: map<PaymentId, Payment>,
    attempts: map<AttemptId, Attempt>,
    posts: map<PostId, Post>,
    procs: map<ProcId, Proc>,
    ledger: map<PaymentId, Donation>)

  datatype Event =
    | Create(proc: ProcId, id: PaymentId, postId: PostId, amount: int)
    | WriteCheckout(proc: ProcId, lifetime: nat)
    | Regenerate(id: PaymentId, from: PaymentId)
    | Receive(proc: ProcId, id: PaymentId, verdict: Status, providerPaymentId: Option<string>)
    | Insert(proc: ProcId, attempt: AttemptId)
    | Lock(proc: ProcId)
    | Commit(proc: ProcId)
    | Select(proc: ProcId, ids: set<PaymentId>)
    | Delete(proc: ProcId)
    | Abort(proc: ProcId)
    | Moderate(postId: PostId, open: bool)
    | Tick(to: nat)

  const BATCH_SIZE := 100

  predicate IsWebhook(s: State, proc: ProcId) { proc in s.procs && s.procs[proc].Webhook? }

  /** A transaction has matched this payment's row and not yet ended. */
  ghost predicate RowLocked(s: State, id: PaymentId) {
    exists p :: IsWebhook(s, p) && s.procs[p].paymentId == id && s.procs[p].stage.Locked?
  }

  /** A transaction has an uncommitted attempt that refers to this payment. */
  ghost predicate Referenced(s: State, id: PaymentId) {
    exists p :: IsWebhook(s, p) && s.procs[p].paymentId == id && !s.procs[p].stage.Checked?
  }

  ghost predicate AttemptIdFree(s: State, a: AttemptId) {
    && a !in s.attempts
    && (forall p :: IsWebhook(s, p) && !s.procs[p].stage.Checked? ==> s.procs[p].stage.attempt != a)
  }

  /** The unique index on the provider's payment id: null values never clash. */
  ghost predicate Taken(s: State, providerPaymentId: Option<string>) {
    providerPaymentId.Some? && exists a :: a in s.attempts && s.attempts[a].providerPaymentId == providerPaymentId
  }

  /** An uncommitted row with the same key makes a second insert wait. */
  ghost predicate Contended(s: State, providerPaymentId: Option<string>) {
    && providerPaymentId.Some?
    && exists p :: IsWebhook(s, p) && !s.procs[p].stage.Checked? && s.procs[p].providerPaymentId == providerPaymentId
  }

  ghost predicate HasAttempts(s: State, id: PaymentId) {
    exists a :: a in s.attempts && s.attempts[a].paymentId == id
  }

  /** What the cleanup job looks for. */
  ghost predicate Stale(s: State, id: PaymentId) {
    && id in s.payments && s.payments[id].status == PENDING
    && s.payments[id].expiredAt.Some? && s.payments[id].expiredAt.value < s.now
    && !HasAttempts(s, id)
  }

  ghost predicate Enabled(s: State, e: Event) {
    match e
    case Create(proc, id, postId, amount) =>
      proc !in s.procs && id !in s.ledger && postId in s.posts && s.posts[postId].open && amount > 0
    case WriteCheckout(proc, _) =>
      proc in s.procs && s.procs[proc].Checkout? && !RowLocked(s, s.procs[proc].paymentId)
    case Regenerate(id, from) =>
      && id !in s.ledger && from in s.payments
      && s.payments[from].expiredAt.Some? && s.now < s.payments[from].expiredAt.value
      && s.payments[from].postId in s.posts && s.posts[s.payments[from].postId].open
    case Receive(proc, id, verdict, _) => proc !in s.procs && id in s.payments && verdict != PENDING
    case Insert(proc, a) =>
      && IsWebhook(s, proc) && s.procs[proc].stage.Checked?
      && AttemptIdFree(s, a) && !Contended(s, s.procs[proc].providerPaymentId)
    case Lock(proc) =>
      IsWebhook(s, proc) && s.procs[proc].stage.Inserted? && !RowLocked(s, s.procs[proc].paymentId)
    case Commit(proc) => IsWebhook(s, proc) && s.procs[proc].stage.Locked?
    case Select(proc, ids) => proc !in s.procs && |ids| <= BATCH_SIZE && forall id :: id in ids ==> Stale(s, id)
    case Delete(proc) =>
      proc in s.procs && s.procs[proc].Cleanup? && forall id :: id in s.procs[proc].ids ==> !Referenced(s, id)
    case Abort(proc) => proc in s.procs
    case Moderate(postId, _) => postId in s.posts
    case Tick(to) => s.now < to
  }

  function End(s: State, proc: ProcId): State {
    s.(procs := s.procs - {proc})
  }

  function NewDonation(postId: PostId, amount: int, checkoutDue: bool): Donation {
    Donation(postId, amount, 0, 0, false, checkoutDue)
  }

  /** updatePaymentCheckoutState with status PENDING: it takes back whatever a webhook has written. */
  function AfterCheckout(s: State, proc: ProcId, lifetime: nat): State
    requires proc in s.procs && s.procs[proc].Checkout?
  {
    var id := s.procs[proc].paymentId;
    if id !in s.payments then End(s, proc)
    else
      var p := s.payments[id];
      End(s, proc).(
        payments := s.payments[id := p.(status := PENDING, expiredAt := Some(s.now + lifetime), confirmedAt := None)],
        ledger := if id !in s.ledger then s.ledger else
                    s.ledger[id := s.ledger[id].(
                      resets := s.ledger[id].resets + (if p.status == SUCCESS then 1 else 0), checkoutDue := false)])
  }

  function CommitAttempt(s: State, proc: ProcId): State
    requires IsWebhook(s, proc) && !s.procs[proc].stage.Checked?
  {
    var w := s.procs[proc];
    End(s, proc).(attempts := s.attempts[w.stage.attempt := Attempt(w.paymentId, w.providerPaymentId, w.verdict)])
  }

  /** The end of either webhook transaction: the attempt, the payment's new status and, for a success, the increment. */
  function AfterCommit(s: State, proc: ProcId): State
    requires IsWebhook(s, proc) && s.procs[proc].stage.Locked?
  {
    var w := s.procs[proc];
    var t := CommitAttempt(s, proc);
    if w.paymentId !in s.payments then t
    else
      var p := s.payments[w.paymentId].(status := w.verdict, lastAttempt := Some(w.stage.attempt));
      match w.verdict
      case SUCCESS =>
        var counted := t.(payments := s.payments[w.paymentId := p.(confirmedAt := Some(s.now))]);
        counted.(
          posts := if p.postId !in s.posts then s.posts else
                     s.posts[p.postId := s.posts[p.postId].(currentAmount := s.posts[p.postId].currentAmount + p.amount)],
          ledger := if w.paymentId !in s.ledger then s.ledger else
                      s.ledger[w.paymentId := s.ledger[w.paymentId].(entries := s.ledger[w.paymentId].entries + 1)])
      case EXPIRED => t.(payments := s.payments[w.paymentId := p.(expiredAt := Some(s.now))])
      case _ => t.(payments := s.payments[w.paymentId := p])
  }

  /** deleteMany by id: it does not look at the status again; attempts go with their payment. */
  function AfterDelete(s: State, proc: ProcId): State
    requires proc in s.procs && s.procs[proc].Cleanup?
  {
    var ids := s.procs[proc].ids;
    End(s, proc).(
      payments := s.payments - ids,
      attempts := map a | a in s.attempts && s.attempts[a].paymentId !in ids :: s.attempts[a],
      ledger := map id | id in s.ledger ::
                  if id in ids && id in s.payments && s.payments[id].status == SUCCESS then s.ledger[id].(lost := true)
                  else s.ledger[id])
  }

  ghost function Apply(s: State, e: Event): State
    requires Enabled(s, e)
  {
    match e
    case Create(proc, id, postId, amount) =>
      s.(payments := s.payments[id := Payment(postId, amount, PENDING, None, None, None)],
         ledger := s.ledger[id := NewDonation(postId, amount, true)],
         procs := s.procs[proc := Checkout(id)])
    case WriteCheckout(proc, lifetime) => AfterCheckout(s, proc, lifetime)
    case Regenerate(id, from) =>
      var p := s.payments[from];
      s.(payments := s.payments[id := Payment(p.postId, p.amount, PENDING, None, None, None)],
         ledger := s.ledger[id := NewDonation(p.postId, p.amount, false)])
    case Receive(proc, id, verdict, providerPaymentId) =>
      s.(procs := s.procs[proc := Webhook(id, verdict, providerPaymentId, Checked)])
    case Insert(proc, a) =>
      var w := s.procs[proc];
      if w.paymentId !in s.payments || Taken(s, w.providerPaymentId) then End(s, proc)
      else s.(procs := s.procs[proc := w.(stage := Inserted(a))])
    case Lock(proc) =>
      var w := s.procs[proc];
      if w.paymentId in s.payments && s.payments[w.paymentId].status != SUCCESS
      then s.(procs := s.procs[proc := w.(stage := Locked(w.stage.attempt))])
      else CommitAttempt(s, proc)
    case Commit(proc) => AfterCommit(s, proc)
    case Select(proc, ids) => s.(procs := s.procs[proc := Cleanup(ids)])
    case Delete(proc) => AfterDelete(s, proc)
    case Abort(proc) => End(s, proc)
    case Moderate(postId, open) => s.(posts := s.posts[postId := s.posts[postId].(open := open)])
    case Tick(to) => s.(now := to)
  }

  /** The posts as they stand at the start, before any payment. */
  function Initial(posts: map<PostId, Post>): State {
    State(0, map[], map[], posts, map[], map[])
  }

  ghost predicate IsRun(posts: map<PostId, Post>, run: seq<State>, events: seq<Event>) {
    && |run| == |events| + 1
    && run[0] == Initial(posts)
    && forall i :: 0 <= i < |events| ==> Enabled(run[i], events[i]) && run[i + 1] == Apply(run[i], events[i])
  }

  // ---- Invariants ----

  predicate IsCheckout(s: State, p: ProcId) { p in s.procs && s.procs[p].Checkout? }

  predicate Paid(s: State, id: PaymentId) { id in s.payments && s.payments[id].status == SUCCESS }

  function Ones(b: bool): nat { if b then 1 else 0 }

  /** What the history of a payment says about its row. */
  ghost predicate Booked(s: State, id: PaymentId)
    requires id in s.ledger
  {
    var d := s.ledger[id];
    && d.amount > 0
    && d.entries == Ones(Paid(s, id)) + d.resets + Ones(d.lost)
    && d.resets <= 1
    && (d.checkoutDue ==> d.resets == 0)
    && (d.lost ==> id !in s.payments)
    && (id in s.payments ==> s.payments[id].postId == d.postId && s.payments[id].amount == d.amount)
    && d.postId in s.posts
  }

  ghost predicate CheckoutSound(s: State, p: ProcId)
    requires IsCheckout(s, p)
  {
    && s.procs[p].paymentId in s.ledger && s.ledger[s.procs[p].paymentId].checkoutDue
    && (forall q :: IsCheckout(s, q) && s.procs[q].paymentId == s.procs[p].paymentId ==> q == p)
  }

  ghost predicate Books(s: State) {
    && s.payments.Keys <= s.ledger.Keys
    && (forall id :: id in s.ledger ==> Booked(s, id))
    && (forall p :: IsCheckout(s, p) ==> CheckoutSound(s, p))
  }

  /** Webhooks in flight: references are to existing rows, locks are exclusive and hold off SUCCESS. */
  ghost predicate WebhookSound(s: State, p: ProcId)
    requires IsWebhook(s, p)
  {
    var w := s.procs[p];
    && w.verdict != PENDING
    && (!w.stage.Checked? ==> w.paymentId in s.payments && w.stage.attempt !in s.attempts)
    && (w.stage.Locked? ==> s.payments[w.paymentId].status != SUCCESS)
  }

  /** Two transactions in flight never hold the same attempt id or the same row lock. */
  ghost predicate PairSound(s: State, p: ProcId, q: ProcId)
    requires IsWebhook(s, p) && IsWebhook(s, q)
  {
    var v, w := s.procs[p], s.procs[q];
    && (!v.stage.Checked? && !w.stage.Checked? && v.stage.attempt == w.stage.attempt ==> p == q)
    && (v.stage.Locked? && w.stage.Locked? && v.paymentId == w.paymentId ==> p == q)
  }

  ghost predicate FlightSound(s: State) {
    && (forall p :: IsWebhook(s, p) ==> WebhookSound(s, p))
    && (forall p, q :: IsWebhook(s, p) && IsWebhook(s, q) ==> PairSound(s, p, q))
  }

  predicate ActsFor(e: Event, p: ProcId) {
    !e.Regenerate? && !e.Moderate? && !e.Tick? && e.proc == p
  }

  /** A step changes at most its own entry among the processes. */
  ghost predicate OnlyOwnProc(s: State, t: State, e: Event) {
    || t.procs == s.procs
    || (!e.Regenerate? && !e.Moderate? && !e.Tick?
        && (t.procs == s.procs - {e.proc} || (e.proc in t.procs && t.procs == s.procs[e.proc := t.procs[e.proc]])))
  }

  lemma OtherProcs(s: State, e: Event, p: ProcId)
    requires Enabled(s, e) && !ActsFor(e, p)
    ensures (p in Apply(s, e).procs) == (p in s.procs)
    ensures p in s.procs ==> Apply(s, e).procs[p] == s.procs[p]
  {
    assert OnlyOwnProc(s, Apply(s, e), e);
  }

  /** A locked row keeps its status until the transaction ends, and a referenced row stays. */
  lemma LockedRowKept(s: State, e: Event, p: ProcId)
    requires Enabled(s, e) && Books(s) && FlightSound(s) && IsWebhook(s, p) && !ActsFor(e, p)
    requires !s.procs[p].stage.Checked?
    ensures var id := s.procs[p].paymentId;
            && id in Apply(s, e).payments
            && (s.procs[p].stage.Locked? ==> Apply(s, e).payments[id].status == s.payments[id].status)
            && s.procs[p].stage.attempt !in Apply(s, e).attempts
  {
    assert WebhookSound(s, p);
    assert Referenced(s, s.procs[p].paymentId);
    if s.procs[p].stage.Locked? {
      assert RowLocked(s, s.procs[p].paymentId);
    }
    if e.Lock? || e.Commit? {
      assert WebhookSound(s, e.proc) && PairSound(s, p, e.proc);
    }
  }

  lemma WebhookSoundStep(s: State, e: Event, p: ProcId)
    requires Enabled(s, e) && Books(s) && FlightSound(s) && IsWebhook(Apply(s, e), p)
    ensures WebhookSound(Apply(s, e), p)
  {
    if ActsFor(e, p) {
      if IsWebhook(s, p) { assert WebhookSound(s, p); }
    } else {
      OtherProcs(s, e, p);
      assert WebhookSound(s, p);
      if !s.procs[p].stage.Checked? {
        LockedRowKept(s, e, p);
      }
    }
  }

  lemma PairSoundStep(s: State, e: Event, p: ProcId, q: ProcId)
    requires Enabled(s, e) && Books(s) && FlightSound(s) && IsWebhook(Apply(s, e), p) && IsWebhook(Apply(s, e), q) && p != q
    requires !ActsFor(e, q)
    ensures PairSound(Apply(s, e), p, q) && PairSound(Apply(s, e), q, p)
  {
    OtherProcs(s, e, q);
    if ActsFor(e, p) {
      if IsWebhook(s, p) { assert PairSound(s, p, q); }
      if s.procs[q].stage.Locked? { assert RowLocked(s, s.procs[q].paymentId); }
    } else {
      OtherProcs(s, e, p);
      assert PairSound(s, p, q);
    }
  }

  lemma FlightSoundStep(s: State, e: Event)
    requires Enabled(s, e) && Books(s) && FlightSound(s)
    ensures FlightSound(Apply(s, e))
  {
    var t := Apply(s, e);
    forall p | IsWebhook(t, p) ensures WebhookSound(t, p) {
      WebhookSoundStep(s, e, p);
    }
    forall p, q | IsWebhook(t, p) && IsWebhook(t, q) ensures PairSound(t, p, q) {
      if p != q {
        if ActsFor(e, q) { PairSoundStep(s, e, q, p); } else { PairSoundStep(s, e, p, q); }
      }
    }
  }

  lemma OtherCheckout(s: State, e: Event, q: ProcId)
    requires Enabled(s, e) && IsCheckout(Apply(s, e), q) && !(e.Create? && e.proc == q)
    ensures IsCheckout(s, q) && s.procs[q] == Apply(s, e).procs[q]
  {
    if !ActsFor(e, q) {
      OtherProcs(s, e, q);
    }
  }

  lemma DueKept(s: State, e: Event, id: PaymentId)
    requires Enabled(s, e) && id in s.ledger && s.ledger[id].checkoutDue
    requires e.WriteCheckout? ==> s.procs[e.proc].paymentId != id
    ensures id in Apply(s, e).ledger && Apply(s, e).ledger[id].checkoutDue
  {
  }

  lemma CheckoutSoundStep(s: State, e: Event, p: ProcId)
    requires Enabled(s, e) && Books(s) && IsCheckout(Apply(s, e), p)
    ensures CheckoutSound(Apply(s, e), p)
  {
    var t := Apply(s, e);
    forall q | IsCheckout(t, q) && !(e.Create? && e.proc == q)
      ensures IsCheckout(s, q) && s.procs[q] == t.procs[q] && CheckoutSound(s, q)
    {
      OtherCheckout(s, e, q);
    }
    if !(e.Create? && e.proc == p) {
      DueKept(s, e, t.procs[p].paymentId);
    }
  }

  lemma BookedCommit(s: State, proc: ProcId, id: PaymentId)
    requires Enabled(s, Commit(proc)) && Books(s) && FlightSound(s) && id in s.ledger
    ensures id in AfterCommit(s, proc).ledger && Booked(AfterCommit(s, proc), id)
  {
    assert WebhookSound(s, proc) && Booked(s, id);
  }

  lemma BookedCheckout(s: State, proc: ProcId, lifetime: nat, id: PaymentId)
    requires Enabled(s, WriteCheckout(proc, lifetime)) && Books(s) && id in s.ledger
    ensures id in AfterCheckout(s, proc, lifetime).ledger && Booked(AfterCheckout(s, proc, lifetime), id)
  {
    assert CheckoutSound(s, proc) && Booked(s, id);
  }

  lemma BookedDelete(s: State, proc: ProcId, id: PaymentId)
    requires Enabled(s, Delete(proc)) && Books(s) && id in s.ledger
    ensures id in AfterDelete(s, proc).ledger && Booked(AfterDelete(s, proc), id)
  {
    assert Booked(s, id);
  }

  lemma BookedNew(s: State, e: Event, id: PaymentId)
    requires Enabled(s, e) && Books(s) && (e.Create? || e.Regenerate?) && id in Apply(s, e).ledger
    ensures Booked(Apply(s, e), id)
  {
    if id in s.ledger { assert Booked(s, id); }
    if e.Regenerate? { assert Booked(s, e.from); }
  }

  lemma BookedOther(s: State, e: Event, id: PaymentId)
    requires Enabled(s, e) && Books(s) && id in s.ledger
    requires !e.Create? && !e.Regenerate? && !e.Commit? && !e.WriteCheckout? && !e.Delete?
    ensures id in Apply(s, e).ledger && Booked(Apply(s, e), id)
  {
    assert Booked(s, id);
  }

  lemma LedgerKeysKept(s: State, e: Event)
    requires Enabled(s, e) && !e.Create? && !e.Regenerate?
    ensures Apply(s, e).ledger.Keys == s.ledger.Keys
  {
  }

  lemma BookedOld(s: State, e: Event, id: PaymentId)
    requires Enabled(s, e) && Books(s) && FlightSound(s) && id in s.ledger && !e.Create? && !e.Regenerate?
    ensures id in Apply(s, e).ledger && Booked(Apply(s, e), id)
  {
    match e {
      case Commit(proc) => BookedCommit(s, proc, id);
      case WriteCheckout(proc, lifetime) => BookedCheckout(s, proc, lifetime, id);
      case Delete(proc) => BookedDelete(s, proc, id);
      case _ => BookedOther(s, e, id);
    }
  }

  lemma BookedStep(s: State, e: Event, id: PaymentId)
    requires Enabled(s, e) && Books(s) && FlightSound(s) && id in Apply(s, e).ledger
    ensures Booked(Apply(s, e), id)
  {
    if e.Create? || e.Regenerate? {
      BookedNew(s, e, id);
    } else {
      LedgerKeysKept(s, e);
      BookedOld(s, e, id);
    }
  }

  lemma BooksStep(s: State, e: Event)
    requires Enabled(s, e) && Books(s) && FlightSound(s)
    ensures Books(Apply(s, e))
  {
    var t := Apply(s, e);
    forall id | id in t.ledger ensures Booked(t, id) {
      BookedStep(s, e, id);
    }
    forall p | IsCheckout(t, p) ensures CheckoutSound(t, p) {
      CheckoutSoundStep(s, e, p);
    }
    KeysStep(s, e);
  }

  lemma KeysStep(s: State, e: Event)
    requires Enabled(s, e) && Books(s) && FlightSound(s)
    ensures Apply(s, e).payments.Keys <= Apply(s, e).ledger.Keys
    ensures s.ledger.Keys <= Apply(s, e).ledger.Keys && s.posts.Keys == Apply(s, e).posts.Keys
  {
    if e.Commit? { assert WebhookSound(s, e.proc); }
  }

  // ---- Statuses ----

  ghost predicate RowSound(s: State, id: PaymentId)
    requires id in s.payments
  {
    var p := s.payments[id];
    && (p.status == SUCCESS <==> p.confirmedAt.Some?)
    && (p.status != PENDING ==>
          && p.lastAttempt.Some? && p.lastAttempt.value in s.attempts
          && s.attempts[p.lastAttempt.value].paymentId == id
          && s.attempts[p.lastAttempt.value].status == p.status)
  }

  ghost predicate RowsSound(s: State) {
    forall id :: id in s.payments ==> RowSound(s, id)
  }

  lemma RowSoundCommit(s: State, proc: ProcId, id: PaymentId)
    requires Enabled(s, Commit(proc)) && FlightSound(s) && RowsSound(s) && id in AfterCommit(s, proc).payments
    ensures RowSound(AfterCommit(s, proc), id)
  {
    assert WebhookSound(s, proc);
    if id in s.payments { assert RowSound(s, id); }
  }

  lemma RowSoundDelete(s: State, proc: ProcId, id: PaymentId)
    requires Enabled(s, Delete(proc)) && RowsSound(s) && id in AfterDelete(s, proc).payments
    ensures RowSound(AfterDelete(s, proc), id)
  {
    assert RowSound(s, id);
  }

  lemma RowSoundLock(s: State, proc: ProcId, id: PaymentId)
    requires Enabled(s, Lock(proc)) && FlightSound(s) && RowsSound(s) && id in s.payments
    ensures id in Apply(s, Lock(proc)).payments && RowSound(Apply(s, Lock(proc)), id)
  {
    assert WebhookSound(s, proc) && RowSound(s, id);
  }

  lemma RowSoundOther(s: State, e: Event, id: PaymentId)
    requires Enabled(s, e) && FlightSound(s) && RowsSound(s) && id in Apply(s, e).payments
    requires !e.Commit? && !e.Delete?
    ensures RowSound(Apply(s, e), id)
  {
    if e.Lock? {
      RowSoundLock(s, e.proc, id);
    } else if id in s.payments {
      assert RowSound(s, id);
    }
  }

  ghost predicate Sound(s: State) {
    Books(s) && FlightSound(s) && RowsSound(s)
  }

  lemma SoundStep(s: State, e: Event)
    requires Enabled(s, e) && Sound(s)
    ensures Sound(Apply(s, e))
  {
    BooksStep(s, e);
    FlightSoundStep(s, e);
    forall id | id in Apply(s, e).payments ensures RowSound(Apply(s, e), id) {
      if e.Commit? { RowSoundCommit(s, e.proc, id); }
      else if e.Delete? { RowSoundDelete(s, e.proc, id); }
      else { RowSoundOther(s, e, id); }
    }
  }

  lemma {:induction false} SoundRun(posts: map<PostId, Post>, run: seq<State>, events: seq<Event>, n: nat)
    requires IsRun(posts, run, events) && n <= |events|
    ensures Sound(run[n]) && run[n].posts.Keys == posts.Keys
  {
    if n > 0 {
      SoundRun(posts, run, events, n - 1);
      SoundStep(run[n - 1], events[n - 1]);
      KeysStep(run[n - 1], events[n - 1]);
    }
  }

  /** In every interleaving: a payment is SUCCESS exactly when it has a confirmation time, any status other than PENDING
      is that of the payment's last attempt, and a payment enters SUCCESS at most twice. */
  lemma StatusesFollowAttempts(posts: map<PostId, Post>, run: seq<State>, events: seq<Event>, n: nat, id: PaymentId)
    requires IsRun(posts, run, events) && n <= |events| && id in run[n].payments
    ensures var s, p := run[n], run[n].payments[id];
            && (p.status == SUCCESS <==> p.confirmedAt.Some?)
            && (p.status != PENDING ==> p.lastAttempt.Some? && p.lastAttempt.value in s.attempts
                                        && s.attempts[p.lastAttempt.value].paymentId == id
                                        && s.attempts[p.lastAttempt.value].status == p.status)
            && id in s.ledger && s.ledger[id].entries <= 2
            && (s.ledger[id].entries == 2 ==> s.ledger[id].resets == 1)
  {
    SoundRun(posts, run, events, n);
    assert RowSound(run[n], id) && Booked(run[n], id);
  }

  // ---- Money ----

  /** What a payment has added to this post: its amount for each entry into SUCCESS. */
  ghost function Credits(ledger: map<PaymentId, Donation>, postId: PostId): PaymentId -> int {
    (id: PaymentId) => if id in ledger && ledger[id].postId == postId then ledger[id].amount * ledger[id].entries else 0
  }

  ghost function Credited(s: State, postId: PostId): int {
    Sum(s.ledger.Keys, Credits(s.ledger, postId))
  }

  lemma CreditedNew(s: State, t: State, id: PaymentId, d: Donation, postId: PostId)
    requires id !in s.ledger && t.ledger == s.ledger[id := d] && d.entries == 0
    ensures Credited(t, postId) == Credited(s, postId)
  {
    assert t.ledger.Keys == s.ledger.Keys + {id};
    SumInsert(s.ledger.Keys, Credits(t.ledger, postId), id);
    SumSame(s.ledger.Keys, Credits(t.ledger, postId), Credits(s.ledger, postId));
  }

  lemma CreditedSame(s: State, t: State, postId: PostId)
    requires t.ledger.Keys == s.ledger.Keys
    requires forall id :: id in s.ledger ==> t.ledger[id].entries == s.ledger[id].entries
                                             && t.ledger[id].postId == s.ledger[id].postId
                                             && t.ledger[id].amount == s.ledger[id].amount
    ensures Credited(t, postId) == Credited(s, postId)
  {
    SumSame(s.ledger.Keys, Credits(t.ledger, postId), Credits(s.ledger, postId));
  }

  lemma CreditedSuccess(s: State, t: State, id: PaymentId, postId: PostId)
    requires id in s.ledger && t.ledger == s.ledger[id := s.ledger[id].(entries := s.ledger[id].entries + 1)]
    ensures Credited(t, postId) == Credited(s, postId) + if s.ledger[id].postId == postId then s.ledger[id].amount else 0
  {
    var d := s.ledger[id];
    assert t.ledger.Keys == s.ledger.Keys;
    assert d.amount * (d.entries + 1) == d.amount * d.entries + d.amount;
    SumChange(s.ledger.Keys, Credits(s.ledger, postId), Credits(t.ledger, postId), id);
  }

  lemma CreditedCommit(s: State, proc: ProcId, postId: PostId)
    requires Enabled(s, Commit(proc)) && Sound(s) && postId in s.posts
    ensures postId in AfterCommit(s, proc).posts
    ensures Credited(AfterCommit(s, proc), postId) - Credited(s, postId)
            == AfterCommit(s, proc).posts[postId].currentAmount - s.posts[postId].currentAmount
  {
    var id := s.procs[proc].paymentId;
    assert WebhookSound(s, proc) && Booked(s, id);
    if s.procs[proc].verdict == SUCCESS {
      CreditedSuccess(s, AfterCommit(s, proc), id, postId);
    }
  }

  lemma OtherStepsKeepMoney(s: State, e: Event, postId: PostId)
    requires Enabled(s, e) && !e.Create? && !e.Regenerate? && !e.Commit?
    ensures Apply(s, e).ledger.Keys == s.ledger.Keys
    ensures forall id :: id in s.ledger ==> Apply(s, e).ledger[id].entries == s.ledger[id].entries
                                            && Apply(s, e).ledger[id].postId == s.ledger[id].postId
                                            && Apply(s, e).ledger[id].amount == s.ledger[id].amount
    ensures postId in s.posts ==>
              postId in Apply(s, e).posts && Apply(s, e).posts[postId].currentAmount == s.posts[postId].currentAmount
  {
  }

  lemma MoneyStep(s: State, e: Event, postId: PostId)
    requires Enabled(s, e) && Sound(s) && postId in s.posts
    ensures postId in Apply(s, e).posts
    ensures Apply(s, e).posts[postId].currentAmount - s.posts[postId].currentAmount
            == Credited(Apply(s, e), postId) - Credited(s, postId)
  {
    match e {
      case Create(_, id, p, amount) =>
        CreditedNew(s, Apply(s, e), id, NewDonation(p, amount, true), postId);
      case Regenerate(id, from) =>
        CreditedNew(s, Apply(s, e), id, NewDonation(s.payments[from].postId, s.payments[from].amount, false), postId);
      case Commit(proc) => CreditedCommit(s, proc, postId);
      case _ =>
        OtherStepsKeepMoney(s, e, postId);
        CreditedSame(s, Apply(s, e), postId);
    }
  }

  /** In every interleaving of webhooks, checkout writes, regenerations and cleanup, a post's amount is its start plus
      each payment's amount for each time that payment entered SUCCESS. */
  lemma {:induction false} AmountIsCredited(
      posts: map<PostId, Post>, run: seq<State>, events: seq<Event>, n: nat, postId: PostId)
    requires IsRun(posts, run, events) && n <= |events| && postId in posts
    ensures postId in run[n].posts
    ensures run[n].posts[postId].currentAmount == posts[postId].currentAmount + Credited(run[n], postId)
  {
    if n > 0 {
      var j := n - 1;
      AmountIsCredited(posts, run, events, j, postId);
      SoundRun(posts, run, events, j);
      MoneyStep(run[j], events[j], postId);
      assert run[n] == Apply(run[j], events[j]);
    }
  }

  // ---- What a payment is for ----

  lemma DonationStep(s: State, e: Event, id: PaymentId)
    requires Enabled(s, e) && Sound(s) && id in s.ledger
    ensures id in Apply(s, e).ledger
    ensures Apply(s, e).ledger[id].postId == s.ledger[id].postId && Apply(s, e).ledger[id].amount == s.ledger[id].amount
  {
    KeysStep(s, e);
  }

  /** Post and amount of a payment never change, not even when its row is gone. */
  lemma {:induction false} DonationKept(posts: map<PostId, Post>, run: seq<State>, events: seq<Event>, k: nat, n: nat,
                                        id: PaymentId)
    requires IsRun(posts, run, events) && k <= n <= |events| && id in run[k].ledger
    ensures id in run[n].ledger
    ensures run[n].ledger[id].postId == run[k].ledger[id].postId && run[n].ledger[id].amount == run[k].ledger[id].amount
    decreases n
  {
    if k < n {
      DonationKept(posts, run, events, k, n - 1, id);
      SoundRun(posts, run, events, n - 1);
      DonationStep(run[n - 1], events[n - 1], id);
      assert run[n] == Apply(run[n - 1], events[n - 1]);
    }
  }

  ghost predicate AttemptsKnown(s: State) {
    forall a :: a in s.attempts ==> s.attempts[a].paymentId in s.ledger
  }

  lemma AttemptsKnownStep(s: State, e: Event)
    requires Enabled(s, e) && Sound(s) && AttemptsKnown(s)
    ensures AttemptsKnown(Apply(s, e))
  {
    KeysStep(s, e);
    if e.Lock? || e.Commit? {
      assert WebhookSound(s, e.proc);
    }
  }

  lemma {:induction false} AttemptsKnownRun(posts: map<PostId, Post>, run: seq<State>, events: seq<Event>, n: nat)
    requires IsRun(posts, run, events) && n <= |events|
    ensures AttemptsKnown(run[n])
  {
    if n > 0 {
      AttemptsKnownRun(posts, run, events, n - 1);
      SoundRun(posts, run, events, n - 1);
      AttemptsKnownStep(run[n - 1], events[n - 1]);
      assert run[n] == Apply(run[n - 1], events[n - 1]);
    }
  }

  /** A row just made: pending, unconfirmed, without a checkout or an attempt; the other rows are as they were. */
  ghost predicate IsNewPayment(s: State, t: State, id: PaymentId, postId: PostId, amount: int) {
    && id !in s.payments && t.payments.Keys == s.payments.Keys + {id}
    && t.payments[id].postId == postId && t.payments[id].amount == amount
    && t.payments[id].status == PENDING && t.payments[id].confirmedAt == None
    && t.payments[id].expiredAt == None && t.payments[id].lastAttempt == None && !HasAttempts(t, id)
    && (forall other :: other in s.payments ==> t.payments[other] == s.payments[other])
    && t.posts == s.posts && t.attempts == s.attempts
  }

  /** In every run, a payment is created only for an approved post, for the amount that was asked for, and stays for
      them. */
  lemma CreatedAsAsked(posts: map<PostId, Post>, run: seq<State>, events: seq<Event>, k: nat, n: nat)
    requires IsRun(posts, run, events) && k < n <= |events| && events[k].Create?
    ensures IsNewPayment(run[k], run[k + 1], events[k].id, events[k].postId, events[k].amount)
    ensures events[k].postId in run[k].posts && run[k].posts[events[k].postId].open
    ensures events[k].id in run[n].payments ==>
              run[n].payments[events[k].id].postId == events[k].postId
              && run[n].payments[events[k].id].amount == events[k].amount
  {
    NewAt(posts, run, events, k, n, events[k].id);
  }

  /** In every run, a regenerated payment is for the post and the amount of its original, which stays as it is, has not
      expired yet, and whose post is still approved. */
  lemma RegeneratedAsOriginal(posts: map<PostId, Post>, run: seq<State>, events: seq<Event>, k: nat, n: nat)
    requires IsRun(posts, run, events) && k < n <= |events| && events[k].Regenerate?
    ensures events[k].from in run[k].payments
    ensures var original := run[k].payments[events[k].from];
            && IsNewPayment(run[k], run[k + 1], events[k].id, original.postId, original.amount)
            && run[k + 1].payments[events[k].from] == original
            && original.expiredAt.Some? && run[k].now < original.expiredAt.value
            && original.postId in run[k].posts && run[k].posts[original.postId].open
            && (events[k].id in run[n].payments ==>
                  run[n].payments[events[k].id].postId == original.postId
                  && run[n].payments[events[k].id].amount == original.amount)
  {
    NewAt(posts, run, events, k, n, events[k].id);
  }

  lemma NewAt(posts: map<PostId, Post>, run: seq<State>, events: seq<Event>, k: nat, n: nat, id: PaymentId)
    requires IsRun(posts, run, events) && k < n <= |events|
    requires (events[k].Create? || events[k].Regenerate?) && events[k].id == id
    ensures id in run[k + 1].payments && id !in run[k].payments && !HasAttempts(run[k + 1], id)
    ensures run[k + 1] == Apply(run[k], events[k])
    ensures id in run[n].payments ==>
              run[n].payments[id].postId == run[k + 1].payments[id].postId
              && run[n].payments[id].amount == run[k + 1].payments[id].amount
  {
    AttemptsKnownRun(posts, run, events, k);
    SoundRun(posts, run, events, k);
    assert run[k + 1] == Apply(run[k], events[k]);
    SoundRun(posts, run, events, k + 1);
    SoundRun(posts, run, events, n);
    DonationKept(posts, run, events, k + 1, n, id);
    assert Booked(run[k + 1], id);
    assert Booked(run[n], id);
  }

  /** The commit of a success confirms its payment and adds the payment's amount to its post, and does nothing else but
      record the attempt. */
  lemma SuccessAdds(posts: map<PostId, Post>, run: seq<State>, events: seq<Event>, n: nat)
    requires IsRun(posts, run, events) && n < |events| && events[n].Commit?
    requires run[n].procs[events[n].proc].verdict == SUCCESS
    ensures var s, t, w := run[n], run[n + 1], run[n].procs[events[n].proc];
            var id, a := w.paymentId, w.stage.attempt;
            && id in s.payments && s.payments[id].status != SUCCESS && s.payments[id].postId in s.posts
            && (var p := s.payments[id];
                && t.payments == s.payments[id := Payment(p.postId, p.amount, SUCCESS, Some(s.now), p.expiredAt, Some(a))]
                && t.posts == s.posts[p.postId := Post(s.posts[p.postId].open, s.posts[p.postId].currentAmount + p.amount)]
                && t.attempts == s.attempts[a := Attempt(id, w.providerPaymentId, SUCCESS)])
  {
    SoundRun(posts, run, events, n);
    var s, proc := run[n], events[n].proc;
    assert WebhookSound(s, proc);
    assert Booked(s, s.procs[proc].paymentId);
    assert run[n + 1] == Apply(s, events[n]);
  }

  /** So when a regenerated payment succeeds, the original's post grows by the original's amount. */
  lemma RegeneratedPays(posts: map<PostId, Post>, run: seq<State>, events: seq<Event>, k: nat, n: nat)
    requires IsRun(posts, run, events) && k < n < |events| && events[k].Regenerate? && events[n].Commit?
    requires run[n].procs[events[n].proc].paymentId == events[k].id && run[n].procs[events[n].proc].verdict == SUCCESS
    ensures events[k].from in run[k].payments
    ensures var original := run[k].payments[events[k].from];
            && original.postId in run[n].posts && original.postId in run[n + 1].posts
            && run[n + 1].posts[original.postId].currentAmount
               == run[n].posts[original.postId].currentAmount + original.amount
  {
    RegeneratedAsOriginal(posts, run, events, k, n);
    SuccessAdds(posts, run, events, n);
  }

  /** The commit of any other verdict changes the payment's status, with the time if it is an expiry, and records the
      attempt; no post changes. */
  lemma FailureOnlyMarks(posts: map<PostId, Post>, run: seq<State>, events: seq<Event>, n: nat)
    requires IsRun(posts, run, events) && n < |events| && events[n].Commit?
    requires run[n].procs[events[n].proc].verdict != SUCCESS
    ensures var s, t, w := run[n], run[n + 1], run[n].procs[events[n].proc];
            var id, a := w.paymentId, w.stage.attempt;
            && id in s.payments && t.posts == s.posts
            && (var p := s.payments[id];
                t.payments == s.payments[id := Payment(p.postId, p.amount, w.verdict, p.confirmedAt,
                                                       if w.verdict == EXPIRED then Some(s.now) else p.expiredAt, Some(a))])
            && t.attempts == s.attempts[a := Attempt(id, w.providerPaymentId, w.verdict)]
  {
    SoundRun(posts, run, events, n);
    assert WebhookSound(run[n], events[n].proc);
    assert run[n + 1] == Apply(run[n], events[n]);
  }

  /** The checkout write makes its payment pending and unconfirmed again, to expire after its lifetime; no post
      changes. */
  lemma CheckoutWrites(posts: map<PostId, Post>, run: seq<State>, events: seq<Event>, n: nat)
    requires IsRun(posts, run, events) && n < |events| && events[n].WriteCheckout?
    ensures var s, t, id := run[n], run[n + 1], run[n].procs[events[n].proc].paymentId;
            && t.posts == s.posts && t.attempts == s.attempts
            && (if id in s.payments then
                  var p := s.payments[id];
                  t.payments == s.payments[id := Payment(p.postId, p.amount, PENDING, None,
                                                         Some(s.now + events[n].lifetime), p.lastAttempt)]
                else t.payments == s.payments)
  {
    assert run[n + 1] == Apply(run[n], events[n]);
  }

  /** The cleanup's deletion takes the selected payments that are still there, with their attempts, and nothing else. */
  lemma DeletionTakes(posts: map<PostId, Post>, run: seq<State>, events: seq<Event>, n: nat, id: PaymentId, a: AttemptId)
    requires IsRun(posts, run, events) && n < |events| && events[n].Delete?
    ensures var s, t, ids := run[n], run[n + 1], run[n].procs[events[n].proc].ids;
            && t.posts == s.posts
            && (id in t.payments <==> id in s.payments && id !in ids)
            && (id in t.payments ==> t.payments[id] == s.payments[id])
            && (a in t.attempts <==> a in s.attempts && s.attempts[a].paymentId !in ids)
            && (a in t.attempts ==> t.attempts[a] == s.attempts[a])
  {
    assert run[n + 1] == Apply(run[n], events[n]);
  }

  /** What a cleanup selects, at most 100 at a time, is pending, past its expiry and without an attempt at that
      moment. */
  lemma SelectionIsStale(posts: map<PostId, Post>, run: seq<State>, events: seq<Event>, n: nat, id: PaymentId)
    requires IsRun(posts, run, events) && n < |events| && events[n].Select? && id in events[n].ids
    ensures |events[n].ids| <= 100
    ensures var s := run[n];
            && id in s.payments && s.payments[id].status == PENDING
            && s.payments[id].expiredAt.Some? && s.payments[id].expiredAt.value < s.now
            && forall a :: a in s.attempts ==> s.attempts[a].paymentId != id
    ensures run[n + 1].procs[events[n].proc] == Cleanup(events[n].ids)
  {
    assert Enabled(run[n], events[n]) && run[n + 1] == Apply(run[n], events[n]);
    assert Stale(run[n], id);
  }

  // ---- One delivery counts once ----

  /** No two attempts, recorded or on their way, have the same provider's id. */
  ghost predicate ProviderIdsOnce(s: State) {
    && (forall a, b ::
          a in s.attempts && b in s.attempts && SameId(s.attempts[a].providerPaymentId, s.attempts[b].providerPaymentId)
          ==> a == b)
    && (forall p :: IsWebhook(s, p) && !s.procs[p].stage.Checked? ==> !Taken(s, s.procs[p].providerPaymentId))
    && (forall p, q ::
          IsOnItsWay(s, p) && IsOnItsWay(s, q) && SameId(s.procs[p].providerPaymentId, s.procs[q].providerPaymentId)
          ==> p == q)
  }

  predicate SameId(a: Option<string>, b: Option<string>) { a.Some? && a == b }

  predicate IsOnItsWay(s: State, p: ProcId) { IsWebhook(s, p) && !s.procs[p].stage.Checked? }

  /** Nothing is recorded, and nobody new is on the way. */
  ghost predicate NoNewIds(s: State, t: State) {
    && (forall a :: a in t.attempts ==> a in s.attempts && t.attempts[a] == s.attempts[a])
    && forall p :: IsWebhook(t, p) && !t.procs[p].stage.Checked? ==>
         IsWebhook(s, p) && !s.procs[p].stage.Checked? && s.procs[p].providerPaymentId == t.procs[p].providerPaymentId
  }

  lemma IdsStayOnce(s: State, t: State)
    requires ProviderIdsOnce(s) && NoNewIds(s, t)
    ensures ProviderIdsOnce(t)
  {
    forall p | IsWebhook(t, p) && !t.procs[p].stage.Checked? ensures !Taken(t, t.procs[p].providerPaymentId) {
      assert IsWebhook(s, p) && !Taken(s, s.procs[p].providerPaymentId);
    }
  }

  lemma RecordedOnce(s: State, proc: ProcId)
    requires ProviderIdsOnce(s) && IsWebhook(s, proc) && !s.procs[proc].stage.Checked?
    requires s.procs[proc].stage.attempt !in s.attempts
    ensures ProviderIdsOnce(CommitAttempt(s, proc))
  {
    var t, k := CommitAttempt(s, proc), s.procs[proc].providerPaymentId;
    forall p | IsWebhook(t, p) && !t.procs[p].stage.Checked? ensures !Taken(t, t.procs[p].providerPaymentId) {
      assert IsWebhook(s, p) && t.procs[p] == s.procs[p] && p != proc;
      assert !Taken(s, s.procs[p].providerPaymentId);
    }
    assert !Taken(s, k);
  }

  lemma InsertedOnce(s: State, proc: ProcId, a: AttemptId)
    requires ProviderIdsOnce(s) && Enabled(s, Insert(proc, a))
    ensures ProviderIdsOnce(Apply(s, Insert(proc, a)))
  {
    var t := Apply(s, Insert(proc, a));
    forall p, q | IsWebhook(t, p) && IsWebhook(t, q) && !t.procs[p].stage.Checked? && !t.procs[q].stage.Checked?
                  && t.procs[p].providerPaymentId.Some? && t.procs[p].providerPaymentId == t.procs[q].providerPaymentId
      ensures p == q
    {
      assert p != proc ==> IsWebhook(s, p) && s.procs[p] == t.procs[p];
      assert q != proc ==> IsWebhook(s, q) && s.procs[q] == t.procs[q];
    }
  }

  lemma LockOnce(s: State, proc: ProcId)
    requires ProviderIdsOnce(s) && Enabled(s, Lock(proc)) && WebhookSound(s, proc)
    ensures ProviderIdsOnce(Apply(s, Lock(proc)))
  {
    var w := s.procs[proc];
    if w.paymentId in s.payments && s.payments[w.paymentId].status != SUCCESS {
      IdsStayOnce(s, Apply(s, Lock(proc)));
    } else {
      RecordedOnce(s, proc);
    }
  }

  lemma CommitOnce(s: State, proc: ProcId)
    requires ProviderIdsOnce(s) && Enabled(s, Commit(proc)) && WebhookSound(s, proc)
    ensures ProviderIdsOnce(Apply(s, Commit(proc)))
  {
    RecordedOnce(s, proc);
    IdsStayOnce(CommitAttempt(s, proc), Apply(s, Commit(proc)));
  }

  lemma OthersRecordNothing(s: State, e: Event)
    requires Enabled(s, e) && !e.Insert? && !e.Lock? && !e.Commit?
    ensures NoNewIds(s, Apply(s, e))
  {
  }

  lemma ProviderIdsOnceStep(s: State, e: Event)
    requires Enabled(s, e) && Sound(s) && ProviderIdsOnce(s)
    ensures ProviderIdsOnce(Apply(s, e))
  {
    if e.Insert? {
      InsertedOnce(s, e.proc, e.attempt);
    } else if e.Lock? {
      assert WebhookSound(s, e.proc);
      LockOnce(s, e.proc);
    } else if e.Commit? {
      assert WebhookSound(s, e.proc);
      CommitOnce(s, e.proc);
    } else {
      OthersRecordNothing(s, e);
      IdsStayOnce(s, Apply(s, e));
    }
  }

  /** In every interleaving a payment of the provider is recorded by one attempt at most, however often it is
      delivered. */
  lemma {:induction false} DeliveriesRecordedOnce(posts: map<PostId, Post>, run: seq<State>, events: seq<Event>, n: nat,
                                                  a: AttemptId, b: AttemptId)
    requires IsRun(posts, run, events) && n <= |events| && a in run[n].attempts && b in run[n].attempts
    requires run[n].attempts[a].providerPaymentId.Some?
    requires run[n].attempts[a].providerPaymentId == run[n].attempts[b].providerPaymentId
    ensures a == b
  {
    ProviderIdsRun(posts, run, events, n);
  }

  lemma {:induction false} ProviderIdsRun(posts: map<PostId, Post>, run: seq<State>, events: seq<Event>, n: nat)
    requires IsRun(posts, run, events) && n <= |events|
    ensures ProviderIdsOnce(run[n])
  {
    if n > 0 {
      ProviderIdsRun(posts, run, events, n - 1);
      SoundRun(posts, run, events, n - 1);
      ProviderIdsOnceStep(run[n - 1], events[n - 1]);
      assert run[n] == Apply(run[n - 1], events[n - 1]);
    }
  }

  // ---- The donation history ----

  predicate IsDonation(s: State, id: PaymentId, postId: PostId) {
    && id in s.payments && s.payments[id].postId == postId
    && s.payments[id].status == SUCCESS && s.payments[id].confirmedAt.Some?
  }

  /** getSuccessfulPostPaymentsHistory: nothing for a post that is not approved, else the confirmed payments. */
  function DonationHistory(s: State, postId: PostId): Option<set<PaymentId>> {
    if postId in s.posts && s.posts[postId].open then Some(set id | id in s.payments && IsDonation(s, id, postId)) else None
  }

  ghost function Amounts(s: State): PaymentId -> int {
    (id: PaymentId) => if id in s.payments then s.payments[id].amount else 0
  }

  /** Times the post was credited for a SUCCESS that its payment row no longer shows. */
  function Forgotten(d: Donation): nat { d.resets + Ones(d.lost) }

  ghost function Losses(ledger: map<PaymentId, Donation>, postId: PostId): PaymentId -> int {
    (id: PaymentId) => if id in ledger && ledger[id].postId == postId then ledger[id].amount * Forgotten(ledger[id]) else 0
  }

  ghost function ListedAmount(s: State, postId: PostId): PaymentId -> int {
    (id: PaymentId) => if IsDonation(s, id, postId) then s.payments[id].amount else 0
  }

  lemma CreditsSplit(s: State, postId: PostId)
    requires Sound(s)
    ensures Credited(s, postId)
            == Sum(s.ledger.Keys, ListedAmount(s, postId)) + Sum(s.ledger.Keys, Losses(s.ledger, postId))
  {
    forall id | id in s.ledger
      ensures Credits(s.ledger, postId)(id) == ListedAmount(s, postId)(id) + Losses(s.ledger, postId)(id)
    {
      assert Booked(s, id);
      if id in s.payments { assert RowSound(s, id); }
      var d := s.ledger[id];
      assert d.amount * (Ones(Paid(s, id)) + Forgotten(d)) == d.amount * Ones(Paid(s, id)) + d.amount * Forgotten(d);
    }
    SumPlus(s.ledger.Keys, ListedAmount(s, postId), Losses(s.ledger, postId), Credits(s.ledger, postId));
  }

  lemma ListedIsHistory(s: State, postId: PostId, history: set<PaymentId>)
    requires Sound(s) && DonationHistory(s, postId) == Some(history)
    ensures Sum(s.ledger.Keys, ListedAmount(s, postId)) == Sum(history, Amounts(s))
  {
    SumExtend(history, s.ledger.Keys, ListedAmount(s, postId));
    SumSame(history, ListedAmount(s, postId), Amounts(s));
  }

  /** The donation history accounts for the whole increase of the post's amount exactly when no payment of the post has
      lost a SUCCESS, either to a late checkout write or to a cleanup that had selected it before it succeeded. What is
      missing is precisely the amounts of those payments. */
  lemma HistoryAccountsForIncrease(
      posts: map<PostId, Post>, run: seq<State>, events: seq<Event>, n: nat, postId: PostId, history: set<PaymentId>)
    requires IsRun(posts, run, events) && n <= |events| && postId in posts
    requires DonationHistory(run[n], postId) == Some(history)
    ensures postId in run[n].posts
    ensures var increase := run[n].posts[postId].currentAmount - posts[postId].currentAmount;
            && increase == Sum(history, Amounts(run[n])) + Sum(run[n].ledger.Keys, Losses(run[n].ledger, postId))
            && (increase == Sum(history, Amounts(run[n])) <==>
                  forall id :: id in run[n].ledger && run[n].ledger[id].postId == postId
                               ==> run[n].ledger[id].resets == 0 && !run[n].ledger[id].lost)
  {
    var s := run[n];
    SoundRun(posts, run, events, n);
    AmountIsCredited(posts, run, events, n, postId);
    CreditsSplit(s, postId);
    ListedIsHistory(s, postId, history);
    LossesZero(s, postId);
  }

  lemma LossesZero(s: State, postId: PostId)
    requires Sound(s)
    ensures Sum(s.ledger.Keys, Losses(s.ledger, postId)) == 0 <==>
            forall id :: id in s.ledger && s.ledger[id].postId == postId ==> s.ledger[id].resets == 0 && !s.ledger[id].lost
  {
    forall id | id in s.ledger
      ensures Losses(s.ledger, postId)(id) >= 0
      ensures Losses(s.ledger, postId)(id) == 0 <==>
              (s.ledger[id].postId == postId ==> s.ledger[id].resets == 0 && !s.ledger[id].lost)
    {
      assert Booked(s, id);
      var d := s.ledger[id];
      if Forgotten(d) > 0 { assert d.amount * Forgotten(d) > 0; }
    }
    SumNonNegative(s.ledger.Keys, Losses(s.ledger, postId));
  }

  // ---- The losses happen ----

  lemma ExtendRun(posts: map<PostId, Post>, run: seq<State>, events: seq<Event>, e: Event, next: State)
    requires IsRun(posts, run, events) && Enabled(run[|events|], e) && next == Apply(run[|events|], e)
    ensures IsRun(posts, run + [next], events + [e])
  {
  }

  /** One payment, its post and the processes around it. */
  ghost function Scene(now: nat, current: int, p: Payment, attempts: map<AttemptId, Attempt>,
                       procs: map<ProcId, Proc>, d: Donation): State
  {
    State(now, map[1 := p], attempts, map[7 := Post(true, current)], procs, map[1 := d])
  }

  function Unpaid(amount: int): Payment { Payment(7, amount, PENDING, None, None, None) }

  /** A payment is created; its checkout write is still to come. */
  lemma CreateOne(amount: int) returns (run: seq<State>, events: seq<Event>)
    requires amount > 0
    ensures IsRun(map[7 := Post(true, 0)], run, events)
    ensures run[|events|] == Scene(0, 0, Unpaid(amount), map[], map[1 := Checkout(1)], NewDonation(7, amount, true))
  {
    var posts := map[7 := Post(true, 0)];
    var s1 := Scene(0, 0, Unpaid(amount), map[], map[1 := Checkout(1)], NewDonation(7, amount, true));
    run, events := [Initial(posts), s1], [Create(1, 1, 7, amount)];
    assert IsRun(posts, run, events);
  }

  /** The webhook arrives before createPayment gets to write the checkout state: the post keeps the money, the payment
      falls back to PENDING, and the history no longer lists it. */
  lemma LateCheckoutHidesDonation(amount: int) returns (run: seq<State>, events: seq<Event>)
    requires amount > 0
    ensures IsRun(map[7 := Post(true, 0)], run, events)
    ensures var s := run[|events|];
            && s.posts == map[7 := Post(true, amount)]
            && 1 in s.payments && s.payments[1].status == PENDING
            && DonationHistory(s, 7) == Some({})
  {
    run, events := CreateOne(amount);
    run, events := Deliver(map[7 := Post(true, 0)], run, events, 0, Unpaid(amount), Checkout(1),
                           NewDonation(7, amount, true));
    var last := TakeBack(amount, run[|events|]);
    ExtendRun(map[7 := Post(true, 0)], run, events, WriteCheckout(1, 0), last);
    run, events := run + [last], events + [WriteCheckout(1, 0)];
  }

  lemma TakeBack(amount: int, s: State) returns (last: State)
    requires s == Scene(0, amount, Unpaid(amount).(status := SUCCESS, confirmedAt := Some(0), lastAttempt := Some(1)),
                        map[1 := Attempt(1, None, SUCCESS)], map[1 := Checkout(1)],
                        NewDonation(7, amount, true).(entries := 1))
    ensures Enabled(s, WriteCheckout(1, 0)) && last == Apply(s, WriteCheckout(1, 0))
    ensures last.posts == s.posts && 1 in last.payments && last.payments[1].status == PENDING
    ensures DonationHistory(last, 7) == Some({})
  {
    last := AfterCheckout(s, 1, 0);
    assert DonationHistory(last, 7).value == {};
  }

  /** The cleanup selects an expired payment; before it deletes it, a success webhook runs to its end: the post keeps
      the money, and the payment is gone with its attempt. */
  lemma CleanupDeletesDonation(amount: int) returns (run: seq<State>, events: seq<Event>)
    requires amount > 0
    ensures IsRun(map[7 := Post(true, 0)], run, events)
    ensures var s := run[|events|];
            && s.posts == map[7 := Post(true, amount)]
            && s.payments == map[] && s.attempts == map[]
            && DonationHistory(s, 7) == Some({})
  {
    var posts := map[7 := Post(true, 0)];
    var expired := Payment(7, amount, PENDING, None, Some(0), None);
    var d := NewDonation(7, amount, false);
    run, events := SelectExpired(amount);
    run, events := Deliver(posts, run, events, 1, expired, Cleanup({1}), d);
    var s := run[|events|];
    var last := State(1, map[], map[], map[7 := Post(true, amount)], map[], map[1 := d.(entries := 1, lost := true)]);
    assert AfterDelete(s, 1) == last;
    ExtendRun(posts, run, events, Delete(1), last);
    run, events := run + [last], events + [Delete(1)];
    assert DonationHistory(last, 7).value == {};
  }

  /** A payment is created and its checkout written. */
  lemma CreateWithCheckout(amount: int) returns (run: seq<State>, events: seq<Event>)
    requires amount > 0
    ensures IsRun(map[7 := Post(true, 0)], run, events)
    ensures run[|events|] == Scene(0, 0, Payment(7, amount, PENDING, None, Some(0), None), map[], map[],
                                   NewDonation(7, amount, false))
  {
    var posts := map[7 := Post(true, 0)];
    var due := NewDonation(7, amount, true);
    run, events := CreateOne(amount);
    var s2 := Scene(0, 0, Unpaid(amount).(expiredAt := Some(0)), map[], map[], due.(checkoutDue := false));
    ExtendRun(posts, run, events, WriteCheckout(1, 0), s2);
    run, events := run + [s2], events + [WriteCheckout(1, 0)];
  }

  /** The checkout expires, and the cleanup selects the payment. */
  lemma SelectExpired(amount: int) returns (run: seq<State>, events: seq<Event>)
    requires amount > 0
    ensures IsRun(map[7 := Post(true, 0)], run, events)
    ensures run[|events|] == Scene(1, 0, Payment(7, amount, PENDING, None, Some(0), None), map[],
                                   map[1 := Cleanup({1})], NewDonation(7, amount, false))
  {
    var posts := map[7 := Post(true, 0)];
    var expired, d := Payment(7, amount, PENDING, None, Some(0), None), NewDonation(7, amount, false);
    run, events := CreateWithCheckout(amount);
    var s3 := Scene(1, 0, expired, map[], map[], d);
    ExtendRun(posts, run, events, Tick(1), s3);
    run, events := run + [s3], events + [Tick(1)];
    var s4 := Scene(1, 0, expired, map[], map[1 := Cleanup({1})], d);
    ExtendRun(posts, run, events, Select(1, {1}), s4);
    run, events := run + [s4], events + [Select(1, {1})];
  }

  /** A payment whose checkout lives and that is paid meanwhile, while a cleanup that found nothing is about. */
  lemma PayInTime(amount: int) returns (run: seq<State>, events: seq<Event>)
    requires amount > 0
    ensures IsRun(map[7 := Post(true, 0)], run, events)
    ensures run[|events|] == Scene(0, amount, Payment(7, amount, SUCCESS, Some(0), Some(10), Some(1)),
                                   map[1 := Attempt(1, None, SUCCESS)], map[1 := Cleanup({})],
                                   NewDonation(7, amount, false).(entries := 1))
  {
    var posts := map[7 := Post(true, 0)];
    var waiting, d := Payment(7, amount, PENDING, None, Some(10), None), NewDonation(7, amount, false);
    run, events := CreateOne(amount);
    var s2 := Scene(0, 0, waiting, map[], map[], d);
    ExtendRun(posts, run, events, WriteCheckout(1, 10), s2);
    run, events := run + [s2], events + [WriteCheckout(1, 10)];
    var s3 := Scene(0, 0, waiting, map[], map[1 := Cleanup({})], d);
    ExtendRun(posts, run, events, Select(1, {}), s3);
    run, events := run + [s3], events + [Select(1, {})];
    run, events := Deliver(posts, run, events, 0, waiting, Cleanup({}), d);
  }

  /** Nothing asks for the status: a payment that has succeeded is regenerated, and its post can be paid for again. */
  lemma PaidPaymentRegenerated(amount: int) returns (run: seq<State>, events: seq<Event>)
    requires amount > 0
    ensures IsRun(map[7 := Post(true, 0)], run, events)
    ensures var s := run[|events|];
            && s.payments == map[1 := Payment(7, amount, SUCCESS, Some(0), Some(10), Some(1)),
                                 2 := Payment(7, amount, PENDING, None, None, None)]
  {
    run, events := PayInTime(amount);
    var s := run[|events|];
    var next := Apply(s, Regenerate(2, 1));
    ExtendRun(map[7 := Post(true, 0)], run, events, Regenerate(2, 1), next);
    run, events := run + [next], events + [Regenerate(2, 1)];
  }

  /** A success webhook from receipt to commit, while the other process does nothing. */
  lemma Deliver(posts: map<PostId, Post>, run0: seq<State>, events0: seq<Event>,
                now: nat, unpaid: Payment, other: Proc, d: Donation)
    returns (run: seq<State>, events: seq<Event>)
    requires IsRun(posts, run0, events0) && unpaid.postId == 7 && unpaid.status == PENDING && !other.Webhook?
    requires run0[|events0|] == Scene(now, 0, unpaid, map[], map[1 := other], d)
    ensures IsRun(posts, run, events)
    ensures run[|events|] ==
            Scene(now, unpaid.amount, unpaid.(status := SUCCESS, confirmedAt := Some(now), lastAttempt := Some(1)),
                  map[1 := Attempt(1, None, SUCCESS)], map[1 := other], d.(entries := d.entries + 1))
  {
    run, events := DeliverInserted(posts, run0, events0, now, unpaid, other, d);
    var s4 := Scene(now, 0, unpaid, map[], map[1 := other, 2 := Webhook(1, SUCCESS, None, Locked(1))], d);
    ExtendRun(posts, run, events, Lock(2), s4);
    run, events := run + [s4], events + [Lock(2)];
    var s5 := DeliverCommit(now, unpaid, other, d);
    ExtendRun(posts, run, events, Commit(2), s5);
    run, events := run + [s5], events + [Commit(2)];
  }

  lemma DeliverCommit(now: nat, unpaid: Payment, other: Proc, d: Donation) returns (s5: State)
    requires unpaid.postId == 7 && unpaid.status == PENDING
    ensures s5 == Scene(now, unpaid.amount, unpaid.(status := SUCCESS, confirmedAt := Some(now), lastAttempt := Some(1)),
                        map[1 := Attempt(1, None, SUCCESS)], map[1 := other], d.(entries := d.entries + 1))
    ensures var s4 := Scene(now, 0, unpaid, map[], map[1 := other, 2 := Webhook(1, SUCCESS, None, Locked(1))], d);
            Enabled(s4, Commit(2)) && s5 == Apply(s4, Commit(2))
  {
    var s4 := Scene(now, 0, unpaid, map[], map[1 := other, 2 := Webhook(1, SUCCESS, None, Locked(1))], d);
    s5 := Scene(now, unpaid.amount, unpaid.(status := SUCCESS, confirmedAt := Some(now), lastAttempt := Some(1)),
                map[1 := Attempt(1, None, SUCCESS)], map[1 := other], d.(entries := d.entries + 1));
    assert s5 == AfterCommit(s4, 2);
  }

  lemma DeliverInserted(posts: map<PostId, Post>, run0: seq<State>, events0: seq<Event>,
                        now: nat, unpaid: Payment, other: Proc, d: Donation)
    returns (run: seq<State>, events: seq<Event>)
    requires IsRun(posts, run0, events0) && unpaid.status == PENDING && !other.Webhook?
    requires run0[|events0|] == Scene(now, 0, unpaid, map[], map[1 := other], d)
    ensures IsRun(posts, run, events)
    ensures run[|events|] ==
            Scene(now, 0, unpaid, map[], map[1 := other, 2 := Webhook(1, SUCCESS, None, Inserted(1))], d)
  {
    var s2 := Scene(now, 0, unpaid, map[], map[1 := other, 2 := Webhook(1, SUCCESS, None, Checked)], d);
    ExtendRun(posts, run0, events0, Receive(2, 1, SUCCESS, None), s2);
    run, events := run0 + [s2], events0 + [Receive(2, 1, SUCCESS, None)];
    var s3 := Scene(now, 0, unpaid, map[], map[1 := other, 2 := Webhook(1, SUCCESS, None, Inserted(1))], d);
    ExtendRun(posts, run, events, Insert(2, 1), s3);
    run, events := run + [s3], events + [Insert(2, 1)];
  }

  // ---- The cleanup job by itself ----

  /** The weekly job when nothing else touches the tables. */
  /** Exactly the rows are gone that were pending, past their expiry and without an attempt. */
  ghost predicate OnlyStaleGone(before: map<PaymentId, Payment>, after: map<PaymentId, Payment>,
                                attempts: map<AttemptId, Attempt>, now: nat) {
    && (forall id :: id in after ==> id in before && after[id] == before[id])
    && forall id :: id in before ==>
         (id !in after <==> && before[id].status == PENDING
                            && before[id].expiredAt.Some? && before[id].expiredAt.value < now
                            && forall a :: a in attempts ==> attempts[a].paymentId != id)
  }

  class ExpiredPendingPaymentsCleanupJob {
    var payments: map<PaymentId, Payment>
    const attempts: map<AttemptId, Attempt>

    constructor (payments: map<PaymentId, Payment>, attempts: map<AttemptId, Attempt>)
      ensures this.payments == payments && this.attempts == attempts
    {
      this.payments := payments;
      this.attempts := attempts;
    }

    predicate Matches(id: PaymentId, now: nat)
      reads this
    {
      && id in payments && payments[id].status == PENDING
      && payments[id].expiredAt.Some? && payments[id].expiredAt.value < now
      && forall a :: a in attempts ==> attempts[a].paymentId != id
    }

    function Candidates(now: nat): set<PaymentId>
      reads this
    {
      set id | id in payments && Matches(id, now)
    }

    lemma CandidatesAreStale(now: nat)
      ensures OnlyStaleGone(payments, payments - Candidates(now), attempts, now)
    {
      forall id | id in payments
        ensures id in Candidates(now) <==>
                && payments[id].status == PENDING
                && payments[id].expiredAt.Some? && payments[id].expiredAt.value < now
                && forall a :: a in attempts ==> attempts[a].paymentId != id
      {
        assert id in Candidates(now) <==> Matches(id, now);
      }
    }

    /** Deletes batch after batch until a batch comes back short; in the end exactly the matching rows are gone. */
    method Handle(now: nat) returns (deletedTotal: nat)
      modifies this`payments
      ensures OnlyStaleGone(old(payments), payments, attempts, now)
      ensures payments == old(payments) - old(Candidates(now))
      ensures deletedTotal == |old(Candidates(now))|
    {
      CandidatesAreStale(now);
      deletedTotal := 0;
      ghost var stale := Candidates(now);
      if Candidates(now) == {} { return; }
      while true
        invariant Candidates(now) <= stale
        invariant payments == old(payments) - (stale - Candidates(now))
        invariant deletedTotal == |stale| - |Candidates(now)|
        decreases |Candidates(now)|
      {
        var ids := TakeBatch(Candidates(now));
        DeleteIds(ids, now);
        if |ids| == 0 { break; }
        deletedTotal := deletedTotal + |ids|;
        if |ids| < BATCH_SIZE { break; }
      }
      assert stale - Candidates(now) == stale;
    }

    method DeleteIds(ids: set<PaymentId>, now: nat)
      requires ids <= Candidates(now)
      modifies this`payments
      ensures payments == old(payments) - ids
      ensures Candidates(now) == old(Candidates(now)) - ids
      ensures |Candidates(now)| == |old(Candidates(now))| - |ids|
    {
      payments := payments - ids;
      assert Candidates(now) == old(Candidates(now)) - ids;
    }

    /** At most one batch of the candidates. */
    method TakeBatch(ids: set<PaymentId>) returns (batch: set<PaymentId>)
      ensures batch <= ids && |batch| <= BATCH_SIZE && (|batch| < BATCH_SIZE ==> batch == ids)
    {
      batch := {};
      var rest := ids;
      while |batch| < BATCH_SIZE && rest != {}
        invariant batch + rest == ids && batch !! rest && |batch| <= BATCH_SIZE
        decreases rest
      {
        var id :| id in rest;
        batch, rest := batch + {id}, rest - {id};
      }
      assert rest == {} ==> batch == ids;
    }
  }

}
