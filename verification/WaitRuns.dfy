/** Exit notification over every interleaving of subscriptions, cancellations, lifecycle steps and removal. */
module WaitRuns {
  import opened Basics
  import opened StatePatches
  import opened Lifecycle
  import opened LifecycleRuns

  /** The waiters map and the filled channels are disjoint, numbered below the next waiter, and gone after removal. */
  predicate WaitsSound(s: State) {
    && (forall w :: w in s.waits.registered ==> w < s.waits.next && w !in s.waits.inbox)
    && (forall w :: w in s.waits.inbox ==> w < s.waits.next)
    && (s.budget.removed ==> s.waits.registered == map[])
  }

  /** The history entry answers a waiter with this condition; only the entry's ends are looked at. */
  predicate Settles(e: Entry, cond: Condition) {
    || e.op.MarkRemoved?
    || (cond != WhenRemoved && ExitEdge(e.before.life.running, e.before.life.status, e.after.life.status))
  }

  /** What one step does to the waiters of a container. */
  lemma StepWaits(cfg: Config, e: Entry)
    requires Step(cfg, e.before, e.op, e.newPid) == Some(e.after)
    ensures !e.op.Subscribe? && !e.op.Cancel? && !Settles(e, NextExit) ==> e.after.waits == e.before.waits
    ensures e.op.MarkRemoved? ==> e.after.waits == Notified(e.before.waits, ResultOf(e.after.life), true)
    ensures !e.op.MarkRemoved? && Settles(e, NextExit) ==>
              e.after.waits == Notified(e.before.waits, ResultOf(e.after.life), false)
    ensures e.op.Subscribe? ==> e.after == Subscribed(e.before, e.op.condition)
    ensures e.op.Cancel? ==> e.after.waits == e.before.waits.(registered := e.before.waits.registered - {e.op.waiter})
    ensures e.after.budget.removed == (e.before.budget.removed || e.op.MarkRemoved?)
  {
  }

  lemma StepKeepsWaits(cfg: Config, e: Entry)
    requires Step(cfg, e.before, e.op, e.newPid) == Some(e.after)
    requires WaitsSound(e.before)
    ensures WaitsSound(e.after)
  {
    StepWaits(cfg, e);
  }

  lemma {:induction false} RunWaits(cfg: Config, h: History)
    requires IsRun(cfg, h)
    ensures WaitsSound(Final(h))
  {
    if h != [] {
      RunWaits(cfg, h[..|h| - 1]);
      StepKeepsWaits(cfg, h[|h| - 1]);
    }
  }

  /**
   Every send under the lock finds its channel empty, so none blocks, even if no reader
   ever takes a result; and a removed container keeps nobody waiting.
   */
  lemma SendNeverBlocks(cfg: Config, h: History, removal: bool)
    requires IsRun(cfg, h)
    ensures var ws := Final(h).waits;
            && Answered(ws.registered, removal) !! ws.inbox.Keys
            && ws.next !in ws.inbox
            && (Final(h).budget.removed ==> ws.registered == map[])
  {
    RunWaits(cfg, h);
  }

  /** Entry j is the first after i to answer waiter w, which was not cancelled before. */
  predicate FirstAnswer(h: History, i: nat, j: nat, w: nat, cond: Condition)
    requires i < j < |h|
  {
    Settles(h[j], cond) && forall k :: i < k < j ==> !Settles(h[k], cond) && h[k].op != Cancel(w)
  }

  predicate Unanswered(h: History, i: nat, w: nat, cond: Condition)
    requires i < |h|
  {
    forall k :: i < k < |h| ==> !Settles(h[k], cond) && h[k].op != Cancel(w)
  }

  /** One step, seen from one waiter: answered, cancelled, or left alone. */
  predicate WaiterMoves(e: Entry, w: nat) {
    var before, after := e.before.waits, e.after.waits;
    && before.next <= after.next
    && (w in before.inbox ==> w in after.inbox && after.inbox[w] == before.inbox[w])
    && if w !in before.registered then
         w !in after.registered && (w in after.inbox ==> w in before.inbox)
       else if Settles(e, before.registered[w]) then
         w !in after.registered && w in after.inbox && after.inbox[w] == ResultOf(e.after.life)
       else
         w !in after.inbox &&
         if e.op == Cancel(w) then w !in after.registered
         else w in after.registered && after.registered[w] == before.registered[w]
  }

  lemma WaiterStep(cfg: Config, e: Entry, w: nat)
    requires Step(cfg, e.before, e.op, e.newPid) == Some(e.after)
    requires WaitsSound(e.before) && w < e.before.waits.next
    ensures WaiterMoves(e, w)
  {
    StepWaits(cfg, e);
  }

  /** Some entry after i is the first to answer w, and its exit code and error are r. */
  predicate AnswerIs(h: History, i: nat, w: nat, cond: Condition, r: WaitResult)
    requires i < |h|
  {
    exists j :: i < j < |h| && FirstAnswer(h, i, j, w, cond) && ResultOf(h[j].after.life) == r
  }

  lemma UnansweredLater(h: History, i: nat, w: nat, cond: Condition)
    requires i < |h| - 1
    ensures var prior, e := h[..|h| - 1], h[|h| - 1];
            Unanswered(h, i, w, cond) <==> Unanswered(prior, i, w, cond) && !Settles(e, cond) && e.op != Cancel(w)
    ensures FirstAnswer(h, i, |h| - 1, w, cond) <==> Unanswered(h[..|h| - 1], i, w, cond) && Settles(h[|h| - 1], cond)
  {
    var prior := h[..|h| - 1];
    assert forall k :: 0 <= k < |prior| ==> prior[k] == h[k];
  }

  lemma FirstAnswerPrior(h: History, i: nat, j: nat, w: nat, cond: Condition)
    requires i < j < |h| - 1
    ensures FirstAnswer(h[..|h| - 1], i, j, w, cond) <==> FirstAnswer(h, i, j, w, cond)
  {
    var prior := h[..|h| - 1];
    assert forall k :: 0 <= k < |prior| ==> prior[k] == h[k];
  }

  lemma AnswerStays(h: History, i: nat, w: nat, cond: Condition, r: WaitResult)
    requires i < |h| - 1 && AnswerIs(h[..|h| - 1], i, w, cond, r)
    ensures AnswerIs(h, i, w, cond, r)
  {
    var prior := h[..|h| - 1];
    var j :| i < j < |prior| && FirstAnswer(prior, i, j, w, cond) && ResultOf(prior[j].after.life) == r;
    FirstAnswerPrior(h, i, j, w, cond);
  }

  lemma AnswerArises(h: History, i: nat, w: nat, cond: Condition, r: WaitResult)
    requires i < |h| - 1 && AnswerIs(h, i, w, cond, r)
    ensures var prior, e := h[..|h| - 1], h[|h| - 1];
            || AnswerIs(prior, i, w, cond, r)
            || (Unanswered(prior, i, w, cond) && Settles(e, cond) && ResultOf(e.after.life) == r)
  {
    var j :| i < j < |h| && FirstAnswer(h, i, j, w, cond) && ResultOf(h[j].after.life) == r;
    if j < |h| - 1 {
      FirstAnswerPrior(h, i, j, w, cond);
      assert h[..|h| - 1][j] == h[j];
    } else {
      UnansweredLater(h, i, w, cond);
    }
  }

  lemma LaterAnswer(h: History, i: nat, w: nat, cond: Condition, r: WaitResult)
    requires i < |h| - 1
    ensures var prior, e := h[..|h| - 1], h[|h| - 1];
            AnswerIs(h, i, w, cond, r) <==>
              || AnswerIs(prior, i, w, cond, r)
              || (Unanswered(prior, i, w, cond) && Settles(e, cond) && ResultOf(e.after.life) == r)
  {
    var prior := h[..|h| - 1];
    if AnswerIs(prior, i, w, cond, r) {
      AnswerStays(h, i, w, cond, r);
    }
    if AnswerIs(h, i, w, cond, r) {
      AnswerArises(h, i, w, cond, r);
    }
    UnansweredLater(h, i, w, cond);
  }

  /**
   The fate of the waiter subscribed at entry i.  A waiter answered at once holds the result of
   that moment; any other holds exactly the exit code and error of the first entry that answers
   it, and otherwise nothing; it stays registered exactly while unanswered and uncancelled.
   */
  ghost predicate FateIs(h: History, i: nat, ws: Waits)
    requires i < |h| && h[i].op.Subscribe?
  {
    var w, cond := h[i].before.waits.next, h[i].op.condition;
    && w < ws.next
    && if AnsweredAtOnce(h[i].before, cond) then
         w !in ws.registered && w in ws.inbox && ws.inbox[w] == ResultOf(h[i].before.life)
       else
         && (w in ws.registered <==> Unanswered(h, i, w, cond))
         && (w in ws.registered ==> ws.registered[w] == cond)
         && (w in ws.inbox ==> AnswerIs(h, i, w, cond, ws.inbox[w]))
         && (forall r :: AnswerIs(h, i, w, cond, r) ==> w in ws.inbox && ws.inbox[w] == r)
  }

  lemma {:induction false} WaitDelivery(cfg: Config, h: History, i: nat)
    requires IsRun(cfg, h) && i < |h| && h[i].op.Subscribe?
    ensures FateIs(h, i, Final(h).waits)
  {
    var n := |h| - 1;
    var prior, e := h[..n], h[n];
    RunWaits(cfg, prior);
    if i == n {
      StepWaits(cfg, e);
    } else {
      WaitDelivery(cfg, prior, i);
      WaiterStep(cfg, e, h[i].before.waits.next);
      FateStep(h, i);
    }
  }

  /** The fate of a waiter follows from its fate before the last entry. */
  lemma FateStep(h: History, i: nat)
    requires i < |h| - 1 && h[i].op.Subscribe?
    requires var e := h[|h| - 1];
             FateIs(h[..|h| - 1], i, e.before.waits) && WaiterMoves(e, h[i].before.waits.next) && WaitsSound(e.before)
    ensures FateIs(h, i, h[|h| - 1].after.waits)
  {
    var w, cond := h[i].before.waits.next, h[i].op.condition;
    forall r ensures AnswerIs(h, i, w, cond, r) <==>
        || AnswerIs(h[..|h| - 1], i, w, cond, r)
        || (Unanswered(h[..|h| - 1], i, w, cond) && Settles(h[|h| - 1], cond) && ResultOf(h[|h| - 1].after.life) == r)
    {
      LaterAnswer(h, i, w, cond, r);
    }
    UnansweredLater(h, i, w, cond);
  }

  /** A `removed` waiter hears nothing but removal, and a `next-exit` waiter nothing but an exit or removal. */
  lemma AnswersAreCauses(cfg: Config, h: History, i: nat)
    requires IsRun(cfg, h) && i < |h| && h[i].op.Subscribe? && !h[i].before.budget.removed
    requires h[i].before.waits.next in Final(h).waits.inbox
    ensures h[i].op.condition == WhenRemoved ==> exists j :: i < j < |h| && h[j].op.MarkRemoved?
    ensures h[i].op.condition == NextExit ==> exists j :: i < j < |h| && Settles(h[j], NextExit)
  {
    WaitDelivery(cfg, h, i);
  }
}
