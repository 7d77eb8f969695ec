/** The client side of one pre-tool review: validate each reply, poll while it is pending, deny on any doubt. */
module Bridge {
  import opened Common
  import opened Reviews

  /** The review fields the hook decodes; `decision` is None for any unknown word. */
  datatype View = View(id: string, decision: Option<Decision>, comment: string, ruleId: string, awaiting: bool,
                       deadline: int)

  const ZERO_VIEW := View("", None, "", "", false, 0)

  /** A JSON reply: absent fields leave the decoded struct as it was. */
  datatype Reply = Reply(
    id: Option<string>, decision: Option<Option<Decision>>, comment: Option<string>,
    ruleId: Option<string>, awaiting: Option<bool>, deadline: Option<int>)

  function Or<T>(o: Option<T>, d: T): T {
    if o.Some? then o.value else d
  }

  function Fill(v: View, r: Reply): View {
    View(Or(r.id, v.id), Or(r.decision, v.decision), Or(r.comment, v.comment),
         Or(r.ruleId, v.ruleId), Or(r.awaiting, v.awaiting), Or(r.deadline, v.deadline))
  }

  datatype Judgement = Continue | Allow | Deny

  function Judge(expected: string, v: View): Judgement {
    if v.id != expected || v.decision == None || v.deadline == 0 then Deny
    else if v.decision == Some(Pending) then Continue
    else if v.comment == "" || v.ruleId == "" then Deny
    else if v.decision == Some(Approved) && v.awaiting then Allow
    else Deny
  }

  /** Where one hook run stands: it has a reply in hand, waits for the next one, or is done. */
  datatype Stage = Starting | Fetched(view: View) | Waiting | Allowed | Denied

  /** Acting on the reply in hand. */
  function Acted(expected: string, stage: Stage): Stage {
    if !stage.Fetched? then stage
    else
      match Judge(expected, stage.view)
      case Continue => Waiting
      case Allow => Allowed
      case Deny => Denied
  }

  /** One turn of the polling loop: the clock at the timeout check, whether the wait ended
      normally, the clock after it, the heartbeat's success, and the reply if one arrived. */
  datatype Poll = Poll(check: int, alive: bool, woke: int, beatOk: bool, reply: Option<Reply>)

  const BEAT_INTERVAL: int := 8 * SECOND

  function LastBeat(start: int, polls: seq<Poll>, n: nat): int
    requires n <= |polls|
  {
    if n == 0 then start
    else
      var before := LastBeat(start, polls, n - 1);
      if polls[n - 1].woke - before > BEAT_INTERVAL then polls[n - 1].woke else before
  }

  /** What the hook has decoded after the n-th reply: only that reply counts. */
  function ViewAt(first: Reply, polls: seq<Poll>, n: nat): View
    requires n <= |polls|
  {
    if n == 0 then Fill(ZERO_VIEW, first)
    else if polls[n - 1].reply.Some? then Fill(ZERO_VIEW, polls[n - 1].reply.value)
    else ZERO_VIEW
  }

  /** Turn n, entered with a pending review, leads to another reply. */
  predicate Proceeds(start: int, first: Reply, polls: seq<Poll>, n: nat)
    requires n < |polls|
  {
    var p := polls[n];
    && p.check <= ViewAt(first, polls, n).deadline + SECOND
    && p.alive
    && (p.woke - LastBeat(start, polls, n) > BEAT_INTERVAL ==> p.beatOk)
    && p.reply.Some?
  }

  predicate GoesOn(expected: string, start: int, first: Reply, polls: seq<Poll>, n: nat)
    requires n < |polls|
  {
    Judge(expected, ViewAt(first, polls, n)) == Continue && Proceeds(start, first, polls, n)
  }

  /** The stage after n turns: the loop as a sequence of fetches and acts. */
  function LoopStage(expected: string, start: int, first: Reply, polls: seq<Poll>, n: nat): Stage
    requires n <= |polls|
  {
    if n == 0 then Acted(expected, Fetched(ViewAt(first, polls, 0)))
    else
      var before := LoopStage(expected, start, first, polls, n - 1);
      if before != Waiting then before
      else if Proceeds(start, first, polls, n - 1) then Acted(expected, Fetched(ViewAt(first, polls, n)))
      else Denied
  }

  predicate AllowedAt(expected: string, start: int, first: Reply, polls: seq<Poll>, n: nat) {
    && n <= |polls|
    && (forall m :: 0 <= m < n ==> GoesOn(expected, start, first, polls, m))
    && Judge(expected, ViewAt(first, polls, n)) == Allow
  }

  lemma StuckNeverAllows(expected: string, start: int, first: Reply, polls: seq<Poll>, k: nat)
    requires k <= |polls| && Judge(expected, ViewAt(first, polls, k)) != Allow
    requires forall m :: 0 <= m < k ==> GoesOn(expected, start, first, polls, m)
    requires k < |polls| ==> !GoesOn(expected, start, first, polls, k)
    ensures !exists n :: AllowedAt(expected, start, first, polls, n)
  {
    forall n: nat
      ensures !AllowedAt(expected, start, first, polls, n)
    {
      assert n < k ==> GoesOn(expected, start, first, polls, n);
    }
  }

  /** Once the loop has left the waiting stage, further polls do not matter. */
  lemma {:induction false} LoopStageStays(expected: string, start: int, first: Reply, polls: seq<Poll>, k: nat, n: nat)
    requires k <= n <= |polls| && LoopStage(expected, start, first, polls, k) != Waiting
    ensures LoopStage(expected, start, first, polls, n) == LoopStage(expected, start, first, polls, k)
  {
    if k < n {
      LoopStageStays(expected, start, first, polls, k, n - 1);
    }
  }

  /** Before turn k the loop is where the judgement of reply k puts it. */
  lemma {:induction false} LoopStageAt(expected: string, start: int, first: Reply, polls: seq<Poll>, k: nat)
    requires k <= |polls| && forall m :: 0 <= m < k ==> GoesOn(expected, start, first, polls, m)
    ensures LoopStage(expected, start, first, polls, k) == Acted(expected, Fetched(ViewAt(first, polls, k)))
  {
    if k > 0 {
      LoopStageAt(expected, start, first, polls, k - 1);
      assert GoesOn(expected, start, first, polls, k - 1);
    }
  }

  lemma LoopEnds(expected: string, start: int, first: Reply, polls: seq<Poll>, k: nat)
    requires k <= |polls| && forall m :: 0 <= m < k ==> GoesOn(expected, start, first, polls, m)
    requires k < |polls| ==> !GoesOn(expected, start, first, polls, k)
    ensures LoopStage(expected, start, first, polls, |polls|) == Allowed
            <==> Judge(expected, ViewAt(first, polls, k)) == Allow
  {
    LoopStageAt(expected, start, first, polls, k);
    if k < |polls| && Judge(expected, ViewAt(first, polls, k)) == Continue {
      LoopStageStays(expected, start, first, polls, k + 1, |polls|);
    } else if k < |polls| {
      LoopStageStays(expected, start, first, polls, k, |polls|);
    }
  }

  // ---------------------------------------------------------------- the loop in terms of the replies' fields

  /** The n-th reply: the one to the submission, then those to the polls. */
  function ReplyAt(first: Reply, polls: seq<Poll>, n: nat): Option<Reply>
    requires n <= |polls|
  {
    if n == 0 then Some(first) else polls[n - 1].reply
  }

  /** A reply about the expected call, with a deadline. */
  predicate Concerns(r: Reply, expected: string) {
    (r.id == Some(expected) || (r.id == None && expected == "")) && r.deadline != None && r.deadline != Some(0)
  }

  /** Not decided yet, whatever it says about rule and reason. */
  predicate Undecided(r: Reply) {
    r.decision == Some(Some(Pending))
  }

  /** Approved, not executed yet, with rule and reason. */
  predicate Approves(r: Reply) {
    && r.decision == Some(Some(Approved)) && r.awaiting == Some(true)
    && r.comment.Some? && r.comment != Some("") && r.ruleId.Some? && r.ruleId != Some("")
  }

  /** A turn that starts within a second of the reply's deadline and ends with a living session. */
  predicate Punctual(p: Poll, r: Reply, lastBeat: int) {
    && r.deadline.Some? && p.check <= r.deadline.value + 1_000_000_000
    && p.alive && (p.woke - lastBeat > 8_000_000_000 ==> p.beatOk)
  }

  /** Reply n approves the expected call, after undecided replies that were all polled on in time. */
  predicate ApprovedAfter(expected: string, start: int, first: Reply, polls: seq<Poll>, n: nat) {
    && n <= |polls|
    && (forall m :: 0 <= m <= n ==> ReplyAt(first, polls, m).Some?)
    && (forall m :: 0 <= m < n ==> UndecidedTurn(expected, start, first, polls, m))
    && Concerns(ReplyAt(first, polls, n).value, expected) && Approves(ReplyAt(first, polls, n).value)
  }

  predicate UndecidedTurn(expected: string, start: int, first: Reply, polls: seq<Poll>, m: nat)
    requires m < |polls|
  {
    var r := ReplyAt(first, polls, m);
    && r.Some? && Concerns(r.value, expected) && Undecided(r.value)
    && Punctual(polls[m], r.value, LastBeat(start, polls, m))
  }

  lemma JudgedByFields(expected: string, r: Reply)
    ensures Judge(expected, Fill(ZERO_VIEW, r)) == Continue <==> Concerns(r, expected) && Undecided(r)
    ensures Judge(expected, Fill(ZERO_VIEW, r)) == Allow <==> Concerns(r, expected) && Approves(r)
  {
  }

  lemma NoReplyIsDenied(expected: string)
    ensures Judge(expected, ZERO_VIEW) == Deny
  {
  }

  lemma AllowedByFields(expected: string, start: int, first: Reply, polls: seq<Poll>, n: nat)
    ensures AllowedAt(expected, start, first, polls, n) <==> ApprovedAfter(expected, start, first, polls, n)
  {
    NoReplyIsDenied(expected);
    forall m: nat | m <= n <= |polls|
      ensures Judge(expected, ViewAt(first, polls, m)) == Allow <==>
                var r := ReplyAt(first, polls, m); r.Some? && Concerns(r.value, expected) && Approves(r.value)
      ensures m < |polls| && polls[m].reply.Some? ==>
                (GoesOn(expected, start, first, polls, m) <==> UndecidedTurn(expected, start, first, polls, m))
      ensures m < |polls| && GoesOn(expected, start, first, polls, m) ==> ReplyAt(first, polls, m + 1).Some?
    {
      var r := ReplyAt(first, polls, m);
      if r.Some? {
        JudgedByFields(expected, r.value);
      }
      hide Judge, Approves, LastBeat;
    }
    hide Judge, Approves, Concerns, UndecidedTurn, GoesOn;
    if AllowedAt(expected, start, first, polls, n) {
      forall m | 0 <= m <= n
        ensures ReplyAt(first, polls, m).Some?
      {
        assert m > 0 ==> GoesOn(expected, start, first, polls, m - 1);
      }
      forall m | 0 <= m < n
        ensures UndecidedTurn(expected, start, first, polls, m)
      {
        assert GoesOn(expected, start, first, polls, m) && ReplyAt(first, polls, m + 1).Some?;
      }
    } else if ApprovedAfter(expected, start, first, polls, n) {
      forall m | 0 <= m < n
        ensures GoesOn(expected, start, first, polls, m)
      {
        assert UndecidedTurn(expected, start, first, polls, m) && ReplyAt(first, polls, m + 1).Some?;
      }
    }
  }

  /** Replies about the expected call, all but the last undecided, fetched in time with working heartbeats. */
  predicate Orderly(expected: string, first: Reply, polls: seq<Poll>) {
    && (forall m :: 0 <= m <= |polls| ==>
          ReplyAt(first, polls, m).Some? && Concerns(ReplyAt(first, polls, m).value, expected))
    && (forall m :: 0 <= m < |polls| ==>
          && ReplyAt(first, polls, m).Some? && Undecided(ReplyAt(first, polls, m).value)
          && ReplyAt(first, polls, m).value.deadline.Some?
          && polls[m].check <= ReplyAt(first, polls, m).value.deadline.value + 1_000_000_000
          && polls[m].alive && polls[m].beatOk)
  }

  lemma OrderlyIsDecidedLast(expected: string, start: int, first: Reply, polls: seq<Poll>)
    requires Orderly(expected, first, polls)
    ensures (exists n :: ApprovedAfter(expected, start, first, polls, n))
            <==> Approves(ReplyAt(first, polls, |polls|).value)
  {
    hide Concerns, LastBeat;
    assert forall m :: 0 <= m < |polls| ==> UndecidedTurn(expected, start, first, polls, m);
    hide UndecidedTurn;
    if Approves(ReplyAt(first, polls, |polls|).value) {
      assert ApprovedAfter(expected, start, first, polls, |polls|);
    }
    forall n: nat | ApprovedAfter(expected, start, first, polls, n)
      ensures n == |polls|
    {
    }
  }

  lemma AwaitByFields(expected: string, start: int, first: Reply, polls: seq<Poll>)
    ensures (exists n :: AllowedAt(expected, start, first, polls, n))
            <==> exists n :: ApprovedAfter(expected, start, first, polls, n)
    ensures Orderly(expected, first, polls) ==>
              ((exists n :: AllowedAt(expected, start, first, polls, n))
               <==> Approves(ReplyAt(first, polls, |polls|).value))
  {
    hide AllowedAt, ApprovedAfter, Approves, Orderly;
    forall n: nat
      ensures AllowedAt(expected, start, first, polls, n) <==> ApprovedAfter(expected, start, first, polls, n)
    {
      AllowedByFields(expected, start, first, polls, n);
    }
    if Orderly(expected, first, polls) {
      OrderlyIsDecidedLast(expected, start, first, polls);
    }
  }

  /** The loop allows the call iff some reply says so after an unbroken series of pending replies;
      that is, iff its fetches and acts end in the allowed stage. */
  method Await(expected: string, start: int, first: Reply, polls: seq<Poll>) returns (allowed: bool)
    ensures allowed <==> exists n :: AllowedAt(expected, start, first, polls, n)
    ensures allowed <==> LoopStage(expected, start, first, polls, |polls|) == Allowed
    ensures allowed <==> exists n :: ApprovedAfter(expected, start, first, polls, n)
    ensures Orderly(expected, first, polls) ==> (allowed <==> Approves(ReplyAt(first, polls, |polls|).value))
  {
    AwaitByFields(expected, start, first, polls);
    hide ApprovedAfter, Orderly, Approves;
    var review := Fill(ZERO_VIEW, first);
    var lastBeat := start;
    var k := 0;
    allowed := false;
    while true
      invariant 0 <= k <= |polls|
      invariant review == ViewAt(first, polls, k) && lastBeat == LastBeat(start, polls, k)
      invariant forall m :: 0 <= m < k ==> GoesOn(expected, start, first, polls, m)
      invariant !allowed
      decreases |polls| - k
    {
      var verdict := Judge(expected, review);
      if verdict == Allow {
        assert AllowedAt(expected, start, first, polls, k);
        assert k < |polls| ==> !GoesOn(expected, start, first, polls, k);
        LoopEnds(expected, start, first, polls, k);
        return true;
      }
      if verdict == Deny || k == |polls| {
        break;
      }
      var p := polls[k];
      if p.check > review.deadline + SECOND || !p.alive {
        break;
      }
      if p.woke - lastBeat > BEAT_INTERVAL {
        if !p.beatOk {
          break;
        }
        lastBeat := p.woke;
      }
      review := ZERO_VIEW;
      if p.reply == None {
        break;
      }
      review := Fill(review, p.reply.value);
      k := k + 1;
    }
    StuckNeverAllows(expected, start, first, polls, k);
    LoopEnds(expected, start, first, polls, k);
  }

  /** A permit comes in time and from a live session: no earlier turn started more than a second after
      its reply's deadline, and after every turn the last heartbeat was at most eight seconds old. */
  lemma PermitIsTimely(expected: string, start: int, first: Reply, polls: seq<Poll>, n: nat)
    requires AllowedAt(expected, start, first, polls, n)
    ensures forall m :: 0 <= m < n ==>
              && ViewAt(first, polls, m).decision == Some(Pending)
              && polls[m].check <= ViewAt(first, polls, m).deadline + SECOND
              && polls[m].woke - LastBeat(start, polls, m + 1) <= BEAT_INTERVAL
              && (LastBeat(start, polls, m + 1) != LastBeat(start, polls, m) ==> polls[m].beatOk)
  {
    forall m | 0 <= m < n
      ensures ViewAt(first, polls, m).decision == Some(Pending)
      ensures polls[m].check <= ViewAt(first, polls, m).deadline + SECOND
      ensures polls[m].woke - LastBeat(start, polls, m + 1) <= BEAT_INTERVAL
      ensures LastBeat(start, polls, m + 1) != LastBeat(start, polls, m) ==> polls[m].beatOk
    {
      assert GoesOn(expected, start, first, polls, m);
    }
  }

  /** The view the server sends of a stored review. */
  function ViewOf(r: Review): View {
    View(r.id, Some(r.decision), r.comment, r.ruleId, r.execution == AwaitingExecution, r.deadline)
  }

  // ---------------------------------------------------------------- the loop on given replies

  /** A complete reply with the fields of a view. */
  function ReplyOf(v: View): Reply {
    Reply(Some(v.id), Some(v.decision), Some(v.comment), Some(v.ruleId), Some(v.awaiting), Some(v.deadline))
  }

  /** The turns that fetch the given views one after the other, in time and without failures. */
  function PromptPolls(views: seq<View>): seq<Poll>
    requires views != []
  {
    seq(|views| - 1,
        i requires 0 <= i < |views| - 1 => Poll(views[i].deadline, true, 0, true, Some(ReplyOf(views[i + 1]))))
  }

  /** All views but the last are pending. */
  predicate PendingBefore(expected: string, views: seq<View>) {
    forall m :: 0 <= m < |views| - 1 ==> Judge(expected, views[m]) == Continue
  }

  lemma {:induction false} PromptBeats(views: seq<View>, n: nat)
    requires views != [] && n < |views|
    ensures LastBeat(0, PromptPolls(views), n) == 0
  {
    if n > 0 {
      PromptBeats(views, n - 1);
    }
  }

  /** Fed with given views, the loop allows exactly when all but the last are pending and the last allows. */
  lemma LoopOnViews(expected: string, views: seq<View>)
    requires views != []
    ensures AllowedAt(expected, 0, ReplyOf(views[0]), PromptPolls(views), |views| - 1)
            <==> PendingBefore(expected, views) && Judge(expected, views[|views| - 1]) == Allow
  {
    var first, polls := ReplyOf(views[0]), PromptPolls(views);
    forall n | 0 <= n < |views|
      ensures ViewAt(first, polls, n) == views[n]
      ensures n < |polls| ==> (GoesOn(expected, 0, first, polls, n) <==> Judge(expected, views[n]) == Continue)
    {
      PromptBeats(views, n);
    }
  }
}
