/** One request over several nodes: the first usable answer wins. Two rules decide what is usable: one for block
    requests, which must not mistake a failing node for a missing block, and one for the head of the chain. */
module NodeFallback {
  import opened Constants
  import opened Options

  datatype NodeError = Unresolved | Http(code: int) | Transport

  /** What a node says in the end, after its own retries. */
  datatype Answer<T> = Resolved(value: T) | Rejected(error: NodeError)

  datatype Verdict = Fallback | ThrowPrevious | ThrowCurrent

  datatype Outcome<T> = Done(value: T) | Thrown(error: NodeError)

  /** `retryRequest` as a function of the remaining answers. The rule for resolved answers may update a state. */
  function Request<S, T>(answers: seq<Answer<T>>, s: S, err: NodeError,
                         onResolved: (S, T) -> (S, bool), onRejected: (NodeError, NodeError) -> Verdict): (Outcome<T>, S)
  {
    if answers == [] then (Thrown(err), s)
    else
      match answers[0]
      case Resolved(r) =>
        var (s', fallback) := onResolved(s, r);
        if fallback then Request(answers[1..], s', Unresolved, onResolved, onRejected) else (Done(r), s')
      case Rejected(e) =>
        match onRejected(err, e)
        case Fallback => Request(answers[1..], s, e, onResolved, onRejected)
        case ThrowPrevious => (Thrown(err), s)
        case ThrowCurrent => (Thrown(e), s)
  }

  /** No error yet is `Transport` here: no rule tells it from having none. */
  const NO_ERROR := Transport

  method RetryRequest<S, T>(answers: seq<Answer<T>>, s: S, onResolved: (S, T) -> (S, bool),
                            onRejected: (NodeError, NodeError) -> Verdict)
    returns (r: Outcome<T>, s': S)
    requires answers != []
    ensures (r, s') == Request(answers, s, NO_ERROR, onResolved, onRejected)
  {
    s' := s;
    var res: Option<T> := None;
    var err := NO_ERROR;
    for i := 0 to |answers|
      invariant res.None? ==> Request(answers, s, NO_ERROR, onResolved, onRejected) == Request(answers[i..], s', err, onResolved, onRejected)
      invariant res.Some? ==> Request(answers, s, NO_ERROR, onResolved, onRejected) == (Done(res.value), s')
    {
      if res.Some? {
        break;
      }
      assert answers[i..][1..] == answers[i + 1..];
      match answers[i]
      case Resolved(v) =>
        var (after, fallback) := onResolved(s', v);
        s' := after;
        if fallback {
          err := Unresolved;
        } else {
          res := Some(v);
        }
      case Rejected(e) =>
        match onRejected(err, e) {
          case Fallback => err := e;
          case ThrowPrevious => return Thrown(err), s';
          case ThrowCurrent => return Thrown(e), s';
        }
    }
    r := if res.Some? then Done(res.value) else Thrown(err);
  }

  // ---- blocks ----------------------------------------------------------------------------------

  const NOT_FOUND := Http(404)

  /** A "not found" is not overruled by a later failure of another kind. */
  function KeepNotFound(): (NodeError, NodeError) -> Verdict {
    (last: NodeError, curr: NodeError) => if last == NOT_FOUND && curr != NOT_FOUND then ThrowPrevious else Fallback
  }

  function TakeAll<T>(): ((), T) -> ((), bool) {
    (s: (), r: T) => ((), false)
  }

  function BlockRequest<T>(answers: seq<Answer<T>>, err: NodeError): Outcome<T> {
    Request(answers, (), err, TakeAll<T>(), KeepNotFound()).0
  }

  /** The position of the first node that resolves, or the number of nodes. */
  function FirstResolved<T>(answers: seq<Answer<T>>): (k: nat)
    ensures k <= |answers| && (k < |answers| ==> answers[k].Resolved?)
    ensures forall j :: 0 <= j < k ==> answers[j].Rejected?
  {
    if answers == [] || answers[0].Resolved? then 0 else 1 + FirstResolved(answers[1..])
  }

  /** All nodes from `i` up to `k` say "not found". */
  predicate NotFoundUntil<T>(answers: seq<Answer<T>>, i: int, k: int) {
    forall j :: 0 <= i <= j < k && j < |answers| ==> answers[j] == Rejected(NOT_FOUND)
  }

  predicate SaysNotFound<T(==)>(answers: seq<Answer<T>>, k: int) {
    exists j :: 0 <= j < k && j < |answers| && answers[j] == Rejected(NOT_FOUND)
  }

  /** After a "not found" the request goes on only as long as every further node says the same. */
  lemma {:induction false} AfterNotFound<T>(answers: seq<Answer<T>>)
    ensures var k := FirstResolved(answers);
      BlockRequest(answers, NOT_FOUND)
      == if k < |answers| && NotFoundUntil(answers, 0, k) then Done(answers[k].value) else Thrown(NOT_FOUND)
  {
    if answers != [] && answers[0].Rejected? {
      var rest := answers[1..];
      AfterNotFound(rest);
      if answers[0] == Rejected(NOT_FOUND) {
        var k := FirstResolved(answers);
        assert NotFoundUntil(answers, 0, k) <==> NotFoundUntil(rest, 0, k - 1) by {
          assert forall j :: 0 <= j < |rest| ==> rest[j] == answers[j + 1];
          assert forall j :: 0 < j < |answers| ==> answers[j] == rest[j - 1];
        }
      }
    }
  }

  /** Without a "not found" before the first resolved answer, that answer is returned; if there is no resolved
      answer, the last error. */
  lemma {:induction false} WithoutNotFound<T>(answers: seq<Answer<T>>, err: NodeError)
    requires err != NOT_FOUND && !SaysNotFound(answers, FirstResolved(answers))
    ensures var k := FirstResolved(answers);
      BlockRequest(answers, err) == if k < |answers| then Done(answers[k].value)
                                    else Thrown(if answers == [] then err else answers[|answers| - 1].error)
  {
    if answers != [] && answers[0].Rejected? {
      var rest := answers[1..];
      assert answers[0] != Rejected(NOT_FOUND);
      assert forall j :: 0 <= j < |rest| ==> rest[j] == answers[j + 1];
      WithoutNotFound(rest, answers[0].error);
    }
  }

  /** Before the first resolved answer, a "not found" is followed by nothing but "not found". */
  predicate NotFoundToTheEnd<T(==)>(answers: seq<Answer<T>>, k: int) {
    forall i, j :: 0 <= i < j < k && j < |answers| && answers[i] == Rejected(NOT_FOUND) ==> answers[j] == Rejected(NOT_FOUND)
  }

  /** Exactly when a request finds a block: some node resolves, and among the nodes asked before the first such node
      no "not found" is followed by another failure. The block found is that node's. */
  lemma {:induction false} FindsExactlyIf<T>(answers: seq<Answer<T>>, err: NodeError)
    requires err != NOT_FOUND
    ensures var k, r := FirstResolved(answers), BlockRequest(answers, err);
      && (r.Done? <==> k < |answers| && NotFoundToTheEnd(answers, k))
      && (r.Done? ==> r.value == answers[k].value)
  {
    if answers != [] && answers[0].Rejected? {
      var rest, k := answers[1..], FirstResolved(answers);
      assert forall j :: 0 <= j < |rest| ==> rest[j] == answers[j + 1];
      assert forall j :: 0 < j < |answers| ==> answers[j] == rest[j - 1];
      if answers[0] == Rejected(NOT_FOUND) {
        AfterNotFound(rest);
        assert NotFoundToTheEnd(answers, k) <==> NotFoundUntil(rest, 0, k - 1);
      } else {
        FindsExactlyIf(rest, answers[0].error);
        assert NotFoundToTheEnd(answers, k) <==> NotFoundToTheEnd(rest, k - 1);
      }
    }
  }

  /** A block counts as missing exactly if the failing answers asked include a "not found" that the last of them
      confirms or that another failure follows: in all cases but a find and a run of other failures. */
  lemma {:induction false} MissingExactlyIf<T>(answers: seq<Answer<T>>, err: NodeError)
    requires err != NOT_FOUND
    ensures BlockRequest(answers, err) == Thrown(NOT_FOUND)
       <==> var k := FirstResolved(answers); SaysNotFound(answers, k) && (k == |answers| || !NotFoundToTheEnd(answers, k))
  {
    if answers != [] && answers[0].Rejected? {
      var rest, k := answers[1..], FirstResolved(answers);
      assert forall j :: 0 <= j < |rest| ==> rest[j] == answers[j + 1];
      assert forall j :: 0 < j < |answers| ==> answers[j] == rest[j - 1];
      if answers[0] == Rejected(NOT_FOUND) {
        AfterNotFound(rest);
        assert NotFoundToTheEnd(answers, k) <==> NotFoundUntil(rest, 0, k - 1);
      } else {
        MissingExactlyIf(rest, answers[0].error);
        assert NotFoundToTheEnd(answers, k) <==> NotFoundToTheEnd(rest, k - 1);
        assert SaysNotFound(answers, k) <==> SaysNotFound(rest, k - 1);
      }
    }
  }

  /** If no node calls an existing block missing, a request never does either; and if none has a missing block, a
      request never finds it. */
  lemma {:induction false} HonestNodes<T>(answers: seq<Answer<T>>, block: Option<T>, err: NodeError)
    requires forall i :: 0 <= i < |answers| ==>
               && (answers[i].Resolved? ==> block == Some(answers[i].value))
               && (answers[i] == Rejected(NOT_FOUND) ==> block.None?)
    requires err == NOT_FOUND ==> block.None?
    ensures var r := BlockRequest(answers, err);
      (r.Done? ==> block == Some(r.value)) && (r == Thrown(NOT_FOUND) ==> block.None?)
  {
    if answers != [] && answers[0].Rejected? {
      var rest := answers[1..];
      assert forall i :: 0 <= i < |rest| ==> rest[i] == answers[i + 1];
      HonestNodes(rest, block, answers[0].error);
    }
  }

  /** One node that lags behind and one that fails: the block the third node has is reported missing. */
  lemma LaggingNodeHidesBlock(block: int)
    ensures BlockRequest([Rejected(NOT_FOUND), Rejected(Transport), Resolved(block)], NO_ERROR) == Thrown(NOT_FOUND)
  {
    var answers := [Rejected(NOT_FOUND), Rejected(Transport), Resolved(block)];
    assert answers[1..] == [Rejected(Transport), Resolved(block)];
    assert BlockRequest(answers, NO_ERROR) == BlockRequest(answers[1..], NOT_FOUND);
  }

  // ---- the head of the chain -------------------------------------------------------------------

  const STALE_AFTER := 420 * 1000

  datatype LatestSlot = LatestSlot(slot: int, fetchTime: int)

  /** A node's head and the time at which its answer is looked at. */
  datatype HeadAnswer = HeadAnswer(slot: nat, finalized: Option<bool>, now: int)

  /** Whether to ask the next node instead, and what is remembered. */
  function JudgeHead(latest: LatestSlot, r: HeadAnswer, epoch: int, finalizedMode: bool): (LatestSlot, bool) {
    if finalizedMode && r.finalized == Some(false) then (latest, true)
    else if r.slot < latest.slot then (latest, true)
    else
      var latest' := if r.slot > latest.slot then LatestSlot(r.slot, r.now) else latest;
      if epoch < latest'.slot / SLOTS_PER_EPOCH then (latest', false)
      else (latest', r.now - latest'.fetchTime > STALE_AFTER)
  }

  function HeadRule(epoch: int, finalizedMode: bool): (LatestSlot, HeadAnswer) -> (LatestSlot, bool) {
    (latest: LatestSlot, r: HeadAnswer) => JudgeHead(latest, r, epoch, finalizedMode)
  }

  function AlwaysFallBack(): (NodeError, NodeError) -> Verdict {
    (last: NodeError, curr: NodeError) => Fallback
  }

  function HeadRequest(answers: seq<Answer<HeadAnswer>>, latest: LatestSlot, err: NodeError, epoch: int, finalizedMode: bool)
    : (Outcome<HeadAnswer>, LatestSlot)
  {
    Request(answers, latest, err, HeadRule(epoch, finalizedMode), AlwaysFallBack())
  }

  class HeadTracker {
    var latestSlot: LatestSlot

    constructor ()
      ensures latestSlot == LatestSlot(0, 0)
    {
      latestSlot := LatestSlot(0, 0);
    }

    method GetLatestSlotHeader(epoch: int, finalizedMode: bool, answers: seq<Answer<HeadAnswer>>) returns (r: Outcome<HeadAnswer>)
      requires answers != []
      modifies this
      ensures (r, latestSlot) == HeadRequest(answers, old(latestSlot), NO_ERROR, epoch, finalizedMode)
    {
      r, latestSlot := RetryRequest(answers, latestSlot, HeadRule(epoch, finalizedMode), AlwaysFallBack());
    }
  }

  predicate KnownUnfinalized(r: HeadAnswer, finalizedMode: bool) {
    finalizedMode && r.finalized == Some(false)
  }

  /** Some node answered with this slot at this time, and not as an unfinalized one. */
  predicate Offered(answers: seq<Answer<HeadAnswer>>, latest: LatestSlot, finalizedMode: bool) {
    exists i :: 0 <= i < |answers| && answers[i].Resolved? && LatestSlot(answers[i].value.slot, answers[i].value.now) == latest
                && !KnownUnfinalized(answers[i].value, finalizedMode)
  }

  lemma OfferedLater(answers: seq<Answer<HeadAnswer>>, latest: LatestSlot, finalizedMode: bool)
    requires answers != [] && Offered(answers[1..], latest, finalizedMode)
    ensures Offered(answers, latest, finalizedMode)
  {
    var rest := answers[1..];
    var i :| 0 <= i < |rest| && rest[i].Resolved? && LatestSlot(rest[i].value.slot, rest[i].value.now) == latest
             && !KnownUnfinalized(rest[i].value, finalizedMode);
    assert answers[i + 1] == rest[i];
  }

  /** Why an answer may be refused: it is unfinalized, behind what is known, or what is known is stale. */
  predicate Refused(r: HeadAnswer, latest: LatestSlot, epoch: int, finalizedMode: bool) {
    || KnownUnfinalized(r, finalizedMode)
    || r.slot < latest.slot
    || (epoch >= latest.slot / SLOTS_PER_EPOCH && r.now - latest.fetchTime > STALE_AFTER)
  }

  /** A request fails only if every node failed or was refused for one of the reasons. */
  lemma {:induction false} ThrownIfAllRefused(answers: seq<Answer<HeadAnswer>>, latest: LatestSlot, err: NodeError, epoch: int, finalizedMode: bool)
    ensures var (r, latest') := HeadRequest(answers, latest, err, epoch, finalizedMode);
      r.Thrown? ==> forall i :: 0 <= i < |answers| && answers[i].Resolved? ==> Refused(answers[i].value, latest', epoch, finalizedMode)
  {
    if answers != [] {
      var rest := answers[1..];
      assert forall i :: 0 < i < |answers| ==> answers[i] == rest[i - 1];
      match answers[0]
      case Resolved(r) =>
        var (latest', fallback) := JudgeHead(latest, r, epoch, finalizedMode);
        if fallback {
          ThrownIfAllRefused(rest, latest', Unresolved, epoch, finalizedMode);
          HeadRequestLaws(rest, latest', Unresolved, epoch, finalizedMode);
          assert Refused(r, latest', epoch, finalizedMode);
        }
      case Rejected(e) =>
        ThrownIfAllRefused(rest, latest, e, epoch, finalizedMode);
    }
  }

  /** One request: the known slot never falls and rises only to one a node offered; a returned header has exactly the
      known slot; and it is either of a later epoch than asked for or not known for more than seven minutes. */
  lemma {:induction false} HeadRequestLaws(answers: seq<Answer<HeadAnswer>>, latest: LatestSlot, err: NodeError, epoch: int, finalizedMode: bool)
    ensures var (r, latest') := HeadRequest(answers, latest, err, epoch, finalizedMode);
      && latest'.slot >= latest.slot
      && (latest' == latest || (latest'.slot > latest.slot && Offered(answers, latest', finalizedMode)))
      && (r.Done? ==> && r.value.slot == latest'.slot
                      && !KnownUnfinalized(r.value, finalizedMode)
                      && (epoch < r.value.slot / SLOTS_PER_EPOCH || r.value.now - latest'.fetchTime <= STALE_AFTER))
  {
    if answers != [] {
      var rest := answers[1..];
      forall l | Offered(rest, l, finalizedMode)
        ensures Offered(answers, l, finalizedMode)
      {
        OfferedLater(answers, l, finalizedMode);
      }
      match answers[0]
      case Resolved(r) =>
        var (latest', fallback) := JudgeHead(latest, r, epoch, finalizedMode);
        assert latest' != latest ==> Offered(answers, latest', finalizedMode);
        if fallback {
          HeadRequestLaws(rest, latest', Unresolved, epoch, finalizedMode);
        }
      case Rejected(e) =>
        HeadRequestLaws(rest, latest, e, epoch, finalizedMode);
    }
  }

  /** A call of `getLatestSlotHeader` and the nodes' answers to it. */
  datatype HeadCall = HeadCall(epoch: int, answers: seq<Answer<HeadAnswer>>)

  function LatestAfter(calls: seq<HeadCall>, finalizedMode: bool): LatestSlot {
    if calls == [] then LatestSlot(0, 0)
    else
      var last := calls[|calls| - 1];
      HeadRequest(last.answers, LatestAfter(calls[..|calls| - 1], finalizedMode), NO_ERROR, last.epoch, finalizedMode).1
  }

  function Returned(calls: seq<HeadCall>, finalizedMode: bool, i: nat): Outcome<HeadAnswer>
    requires i < |calls|
  {
    HeadRequest(calls[i].answers, LatestAfter(calls[..i], finalizedMode), NO_ERROR, calls[i].epoch, finalizedMode).0
  }

  lemma {:induction false} LatestRises(calls: seq<HeadCall>, finalizedMode: bool, i: nat)
    requires i <= |calls|
    ensures LatestAfter(calls[..i], finalizedMode).slot <= LatestAfter(calls, finalizedMode).slot
  {
    if i == |calls| {
      assert calls[..i] == calls;
    } else {
      var init, last := calls[..|calls| - 1], calls[|calls| - 1];
      LatestRises(init, finalizedMode, i);
      assert init[..i] == calls[..i];
      HeadRequestLaws(last.answers, LatestAfter(init, finalizedMode), NO_ERROR, last.epoch, finalizedMode);
    }
  }

  /** Whatever the nodes answer over all calls, the heads handed out never go back. */
  lemma HeadNeverGoesBack(calls: seq<HeadCall>, finalizedMode: bool, i: nat, j: nat)
    requires i < j < |calls| && Returned(calls, finalizedMode, i).Done? && Returned(calls, finalizedMode, j).Done?
    ensures Returned(calls, finalizedMode, i).value.slot <= Returned(calls, finalizedMode, j).value.slot
  {
    HeadRequestLaws(calls[i].answers, LatestAfter(calls[..i], finalizedMode), NO_ERROR, calls[i].epoch, finalizedMode);
    HeadRequestLaws(calls[j].answers, LatestAfter(calls[..j], finalizedMode), NO_ERROR, calls[j].epoch, finalizedMode);
    LatestRises(calls[..j], finalizedMode, i + 1);
    assert calls[..j][..i + 1] == calls[..i + 1] && calls[..i + 1][..i] == calls[..i];
    hide HeadRequest;
  }
}
