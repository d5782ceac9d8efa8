/**
 * The callback dispatcher of the bot (`callbackHandler`) and the one piece
 * of process-wide state it keeps: the identifier of the last reply it sent.
 *
 * A callback's payload parse (`strconv.ParseFloat`), the rate fetch and the
 * send of the reply are inputs; the handler's effect is the ordered list of
 * platform actions it issues together with the new `lastMessageID`.
 */
module Callback {
  import opened Wrappers
  import opened Floats
  import RateFetcher

  /** Which pricing formula produced a reply. The formulas themselves are float arithmetic and stay abstract. */
  datatype Formula =
    | InternalCommission      // calculateRateWithInternCommission: the commission alone
    | WithdrawalFeeCommission // calculateRateWithCommission: the commission plus the 0.26 withdrawal fee

  /** The two user-visible error messages. */
  datatype Notice =
    | CommissionNotice  // the payload did not parse
    | RateNotice        // the rate fetch failed

  /** One outbound effect of the handler, in the chat of the callback. */
  datatype Action =
    | FetchRate
    | SendError(chat: int, notice: Notice)
    | DeleteMessage(chat: int, messageId: int)
    | SendReply(chat: int, formula: Formula, commission: Float64, rate: Float64)

  /** What sending the reply returned; its error is discarded by the handler. */
  datatype SendResult = Delivered(messageId: int) | SendFailed

  /** One callback query and the outcomes of the calls the handler would make for it. */
  datatype Query = Query(chat: int, payload: Option<Float64>, http: RateFetcher.HttpResult, send: SendResult)

  /** The actions one or more callbacks issue and the `lastMessageID` they leave. */
  datatype Step = Step(actions: seq<Action>, lastMessageID: int)

  /** The text in front of the formatted numbers of a reply. */
  function Prefix(f: Formula): string {
    match f
    case InternalCommission => "Курс себестоимости с комиссией"
    case WithdrawalFeeCommission => "Курс с комиссией"
  }

  /** The branch on `commission == 0.26`. */
  function ChooseFormula(commission: Float64): Formula {
    if Equal(commission, CostBasis) then InternalCommission else WithdrawalFeeCommission
  }

  /** The `MessageID` of the message `bot.Send` returned: zero when the send failed. */
  function SentID(s: SendResult): int {
    match s
    case Delivered(id) => id
    case SendFailed => 0
  }

  /** The handler as a function of the old `lastMessageID` and the callback. */
  function Handle(last: int, q: Query): Step {
    match q.payload
    case None => Step([SendError(q.chat, CommissionNotice)], last)
    case Some(commission) =>
      match RateFetcher.Fetch(q.http)
      case Failure(_) => Step([FetchRate, SendError(q.chat, RateNotice)], last)
      case Success(rate) =>
        var delete := if last != 0 then [DeleteMessage(q.chat, last)] else [];
        Step([FetchRate] + delete + [SendReply(q.chat, ChooseFormula(commission), commission, rate)],
             SentID(q.send))
  }

  /** The callback gets as far as sending a reply. */
  predicate Replies(q: Query) {
    q.payload.Some? && RateFetcher.Fetch(q.http).Success?
  }

  function CountErrors(actions: seq<Action>): nat {
    if actions == [] then 0
    else (if actions[0].SendError? then 1 else 0) + CountErrors(actions[1..])
  }

  /** Callbacks handled one after another, as the update loop delivers them. */
  function Run(last: int, qs: seq<Query>): Step
    decreases |qs|
  {
    if qs == [] then Step([], last)
    else
      var first := Handle(last, qs[0]);
      var rest := Run(first.lastMessageID, qs[1..]);
      Step(first.actions + rest.actions, rest.lastMessageID)
  }

  /** Reference definition of the state after a run: the id of the latest reply sent, else the start value. */
  function LatestReplyID(init: int, qs: seq<Query>): int
    decreases |qs|
  {
    if qs == [] then init
    else if Replies(qs[|qs| - 1]) then SentID(qs[|qs| - 1].send)
    else LatestReplyID(init, qs[..|qs| - 1])
  }

  /** The nonzero ids of the replies a run sends. */
  function ReplyIDs(qs: seq<Query>): set<int>
    decreases |qs|
  {
    if qs == [] then {}
    else (if Replies(qs[0]) && SentID(qs[0].send) != 0 then {SentID(qs[0].send)} else {}) + ReplyIDs(qs[1..])
  }

  /** The process-wide state of the bot. */
  class Bot {
    var lastMessageID: int

    /** A Go package variable starts at zero. */
    constructor ()
      ensures lastMessageID == 0
    {
      lastMessageID := 0;
    }

    /** `callbackHandler`. */
    method HandleCallback(q: Query) returns (actions: seq<Action>)
      modifies this
      ensures Step(actions, lastMessageID) == Handle(old(lastMessageID), q)
      ensures !Replies(q) ==> lastMessageID == old(lastMessageID)
      ensures Replies(q) ==> lastMessageID == SentID(q.send)
    {
      if q.payload.None? {
        return [SendError(q.chat, CommissionNotice)];
      }
      var commission := q.payload.value;
      actions := [FetchRate];
      var rate := RateFetcher.GetUSDTPrice(q.http);
      if rate.Failure? {
        return actions + [SendError(q.chat, RateNotice)];
      }
      var formula: Formula;
      if Equal(commission, CostBasis) {
        formula := InternalCommission;
      } else {
        formula := WithdrawalFeeCommission;
      }
      if lastMessageID != 0 {
        actions := actions + [DeleteMessage(q.chat, lastMessageID)];
      }
      actions := actions + [SendReply(q.chat, formula, commission, rate.value)];
      lastMessageID := SentID(q.send);
    }

    /** The update loop, for a stream of callback queries delivered one at a time. */
    method HandleCallbacks(qs: seq<Query>) returns (actions: seq<Action>)
      modifies this
      ensures Step(actions, lastMessageID) == Run(old(lastMessageID), qs)
      ensures lastMessageID == LatestReplyID(old(lastMessageID), qs)
    {
      actions := [];
      for i := 0 to |qs|
        invariant Step(actions, lastMessageID) == Run(old(lastMessageID), qs[..i])
      {
        RunSnoc(old(lastMessageID), qs[..i], qs[i]);
        assert qs[..i + 1] == qs[..i] + [qs[i]];
        var more := HandleCallback(qs[i]);
        actions := actions + more;
      }
      assert qs[..|qs|] == qs;
      RunState(old(lastMessageID), qs);
    }
  }

  // ---------------------------------------------------------------------------
  // One callback

  /** An unparseable payload: one error message, no fetch, no delete, state kept. */
  lemma ParseFailure(last: int, q: Query)
    requires q.payload.None?
    ensures Handle(last, q).actions == [SendError(q.chat, CommissionNotice)]
    ensures CountErrors(Handle(last, q).actions) == 1
    ensures FetchRate !in Handle(last, q).actions
    ensures forall a :: a in Handle(last, q).actions ==> !a.DeleteMessage? && !a.SendReply?
    ensures Handle(last, q).lastMessageID == last
  {
  }

  /** A failed fetch, for any of its reasons: one error message after the fetch, no delete, state kept. */
  lemma FetchFailure(last: int, q: Query)
    requires q.payload.Some? && RateFetcher.Fetch(q.http).Failure?
    ensures Handle(last, q).actions == [FetchRate, SendError(q.chat, RateNotice)]
    ensures CountErrors(Handle(last, q).actions) == 1
    ensures forall a :: a in Handle(last, q).actions ==> !a.DeleteMessage? && !a.SendReply?
    ensures Handle(last, q).lastMessageID == last
  {
    var acts := [FetchRate, SendError(q.chat, RateNotice)];
    assert acts[1..] == [SendError(q.chat, RateNotice)];
    assert CountErrors(acts[1..]) == 1 + CountErrors([]);
  }

  /**
   * The reply path: the previous reply is deleted exactly when one is
   * recorded, before the new reply, which is the last action; afterwards the
   * state is what the send returned.
   */
  lemma ReplyPath(last: int, q: Query)
    requires Replies(q)
    ensures var acts := Handle(last, q).actions;
      && acts[0] == FetchRate
      && acts[|acts| - 1] == SendReply(q.chat, ChooseFormula(q.payload.value), q.payload.value, RateFetcher.Fetch(q.http).value)
      && (exists i :: 0 <= i < |acts| && acts[i].DeleteMessage?) == (last != 0)
      && (forall i :: 0 <= i < |acts| && acts[i].DeleteMessage? ==> i < |acts| - 1 && acts[i] == DeleteMessage(q.chat, last))
      && CountErrors(acts) == 0
    ensures Handle(last, q).lastMessageID == SentID(q.send)
    ensures q.send.SendFailed? ==> Handle(last, q).lastMessageID == 0
  {
    var acts := Handle(last, q).actions;
    var reply := SendReply(q.chat, ChooseFormula(q.payload.value), q.payload.value, RateFetcher.Fetch(q.http).value);
    if last != 0 {
      assert acts == [FetchRate, DeleteMessage(q.chat, last), reply];
      assert acts[1].DeleteMessage?;
      assert CountErrors(acts) == CountErrors(acts[1..]) == CountErrors(acts[2..]) == CountErrors([]);
    } else {
      assert acts == [FetchRate, reply];
      assert CountErrors(acts) == CountErrors(acts[1..]) == CountErrors([]);
    }
  }

  /** The internal formula, and its prefix, is chosen exactly for the commission 0.26. */
  lemma FormulaChoice(commission: Float64)
    ensures ChooseFormula(commission) == InternalCommission <==> commission == CostBasis
    ensures ChooseFormula(commission) == WithdrawalFeeCommission <==> commission != CostBasis
    ensures Prefix(InternalCommission) != Prefix(WithdrawalFeeCommission)
  {
  }

  // ---------------------------------------------------------------------------
  // Several callbacks

  /** Handling one more callback after a run. */
  lemma {:induction false} RunSnoc(last: int, qs: seq<Query>, q: Query)
    ensures Run(last, qs + [q]) ==
      var before := Run(last, qs);
      var step := Handle(before.lastMessageID, q);
      Step(before.actions + step.actions, step.lastMessageID)
    decreases |qs|
  {
    if qs == [] {
      assert qs + [q] == [q];
    } else {
      assert (qs + [q])[0] == qs[0];
      assert (qs + [q])[1..] == qs[1..] + [q];
      RunSnoc(Handle(last, qs[0]).lastMessageID, qs[1..], q);
    }
  }

  /** After any run the state is the id the latest reply's send returned, or the start value if none was sent. */
  lemma {:induction false} RunState(init: int, qs: seq<Query>)
    ensures Run(init, qs).lastMessageID == LatestReplyID(init, qs)
    decreases |qs|
  {
    if qs != [] {
      var front, q := qs[..|qs| - 1], qs[|qs| - 1];
      assert qs == front + [q];
      RunSnoc(init, front, q);
      RunState(init, front);
    }
  }

  /** Two callbacks in a row: the actions of the first, then those of the second from the state the first left. */
  lemma RunPair(init: int, q1: Query, q2: Query)
    ensures Run(init, [q1, q2]) ==
      var first := Handle(init, q1);
      var second := Handle(first.lastMessageID, q2);
      Step(first.actions + second.actions, second.lastMessageID)
  {
    var first := Handle(init, q1);
    var second := Handle(first.lastMessageID, q2);
    assert [q1, q2][1..] == [q2];
    assert [q2][1..] == [];
    assert Run(first.lastMessageID, [q2]) == Step(second.actions + [], second.lastMessageID);
    assert second.actions + [] == second.actions;
  }

  /**
   * Two callbacks that both reply: the second deletes the message the first
   * sent (in the second's chat), before its own reply, unless the first send
   * failed, in which case nothing is deleted.
   */
  lemma SecondReplyDeletesFirst(init: int, q1: Query, q2: Query)
    requires Replies(q1) && Replies(q2)
    ensures var acts := Run(init, [q1, q2]).actions;
      var second := acts[|Handle(init, q1).actions|..];
      && (SentID(q1.send) != 0 ==> |second| == 3 && second[1] == DeleteMessage(q2.chat, SentID(q1.send)))
      && (SentID(q1.send) == 0 ==> forall a :: a in second ==> !a.DeleteMessage?)
    ensures Run(init, [q1, q2]).lastMessageID == SentID(q2.send)
  {
    var first := Handle(init, q1);
    var second := Handle(first.lastMessageID, q2);
    RunPair(init, q1, q2);
    assert Run(init, [q1, q2]).actions[|first.actions|..] == second.actions;
    ReplyPath(first.lastMessageID, q2);
  }

  /**
   * The state is shared by all chats: a reply in chat `a` followed by a reply
   * in another chat `b` makes the handler delete, in chat `b`, the id of the
   * message sent to chat `a`.
   */
  lemma CrossChatDelete(init: int, q1: Query, q2: Query)
    requires Replies(q1) && Replies(q2) && q1.chat != q2.chat && SentID(q1.send) != 0
    ensures DeleteMessage(q2.chat, SentID(q1.send)) in Run(init, [q1, q2]).actions
  {
  }

  /** A run only ever deletes the start value or the id of a reply it sent, never id 0. */
  lemma {:induction false} DeletesOnlySentReplies(init: int, qs: seq<Query>)
    ensures forall a :: a in Run(init, qs).actions && a.DeleteMessage? ==>
      a.messageId != 0 && (a.messageId == init || a.messageId in ReplyIDs(qs))
    decreases |qs|
  {
    if qs != [] {
      var first := Handle(init, qs[0]);
      DeletesOnlySentReplies(first.lastMessageID, qs[1..]);
      forall a | a in first.actions && a.DeleteMessage?
        ensures a.messageId == init && init != 0
      {
      }
    }
  }
}
