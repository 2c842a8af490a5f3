/**
 * The state that `ChatProvider` in contexts/ChatContext.tsx keeps and updates:
 * the reducer-driven execution record, the request ids, and the FIFO queue of
 * pending submissions, with the `canSubmit` guard over them.
 */
module ChatProvider {
  import opened Wrappers
  import JsString
  import opened ChatExec

  /** A message waiting to be sent. */
  datatype PendingSubmission = PendingSubmission(text: string, requestId: Option<string>)

  class Provider {
    var execData: ExecStateData
    var requestId: Option<string>
    /** Declared by the provider and read by `canSubmit`; no code path ever sets it. */
    var activeRequestId: Option<string>
    var pendingQueue: seq<PendingSubmission>

    /** The first render: budgets from the subscription tier, an idle record, no request, an empty queue. */
    constructor (subscription: Option<string>)
      ensures execData == Initial(GetTokenBudget(subscription), GetCharBudget(subscription))
      ensures requestId == None && activeRequestId == None && pendingQueue == []
    {
      execData := Initial(GetTokenBudget(subscription), GetCharBudget(subscription));
      requestId := None;
      activeRequestId := None;
      pendingQueue := [];
    }

    /** `dispatchExec`: the reducer replaces the record. */
    method DispatchExec(a: ExecAction)
      modifies this`execData
      ensures execData == ExecReducer(old(execData), a)
    {
      execData := ExecReducer(execData, a);
    }

    /** `setRequestId`. */
    method SetRequestId(id: Option<string>)
      modifies this`requestId
      ensures requestId == id
    {
      requestId := id;
    }

    /** `enqueueSubmission`: the item goes to the back. */
    method EnqueueSubmission(item: PendingSubmission)
      modifies this`pendingQueue
      ensures pendingQueue == old(pendingQueue) + [item]
    {
      pendingQueue := pendingQueue + [item];
    }

    /** `shiftSubmission`: the front item leaves the queue; an empty queue stays empty. */
    method ShiftSubmission()
      modifies this`pendingQueue
      ensures old(pendingQueue) == [] ==> pendingQueue == []
      ensures old(pendingQueue) != [] ==> pendingQueue == old(pendingQueue)[1..]
    {
      if pendingQueue != [] {
        pendingQueue := pendingQueue[1..];
      }
    }

    /** `clearQueue`. */
    method ClearQueue()
      modifies this`pendingQueue
      ensures pendingQueue == []
    {
      pendingQueue := [];
    }

    /** `canSubmit`: the record is at rest and neither request id is set (an empty id counts as unset). */
    function CanSubmit(): bool
      reads this
    {
      Submittable(execData.state, requestId, activeRequestId)
    }
  }

  /** The `canSubmit` condition on its three inputs. */
  function Submittable(st: ExecState, requestId: Option<string>, activeRequestId: Option<string>): (r: bool)
    ensures r ==> st in AllowedFrom(StartValidation(""))
    ensures r ==> (requestId.None? || requestId.value == "") && (activeRequestId.None? || activeRequestId.value == "")
  {
    st in [Idle, Done, Error, Limited, Cancelled]
    && !JsString.Truthy(requestId) && !JsString.Truthy(activeRequestId)
  }

  /** When the provider allows a submission, START_VALIDATION is accepted and opens the new request. */
  lemma SubmittableAcceptsStart(s: ExecStateData, requestId: Option<string>, activeRequestId: Option<string>, id: string)
    requires Submittable(s.state, requestId, activeRequestId)
    ensures ExecReducer(s, StartValidation(id)).state == Validating
    ensures ExecReducer(s, StartValidation(id)).requestId == Some(id)
  {
  }

  /** Queue order is first in, first out: what is enqueued behind a queue of n items comes out after n shifts. */
  lemma {:induction false} QueueIsFifo(q: seq<PendingSubmission>, item: PendingSubmission)
    ensures Shifted(q + [item], |q|) == [item]
  {
    ShiftedAppend(q, [item], |q|);
  }

  /** The queue after `n` shifts. */
  function Shifted(q: seq<PendingSubmission>, n: nat): seq<PendingSubmission>
    decreases n
  {
    if n == 0 || q == [] then q else Shifted(q[1..], n - 1)
  }

  lemma {:induction false} ShiftedAppend(q: seq<PendingSubmission>, tail: seq<PendingSubmission>, n: nat)
    requires n <= |q|
    ensures Shifted(q + tail, n) == q[n..] + tail
    decreases n
  {
    if n > 0 {
      assert (q + tail)[1..] == q[1..] + tail;
      ShiftedAppend(q[1..], tail, n - 1);
    }
  }
}
