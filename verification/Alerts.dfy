/** Critical alerts about missed attestations: what they report, and when they are sent again. */
module Alerts {
  import opened Options

  // ---- what is reported ------------------------------------------------------------------------

  datatype Thresholds = AffectedCount(n: nat) | ActiveCount(minActive: nat, affectedShare: real, minAffected: nat)

  datatype NosStats = NosStats(nosId: int, activeOngoing: nat)
  datatype Missed = Missed(moduleId: int, nosId: Option<int>, amount: nat)
  datatype Operator = Operator(moduleId: int, index: int, name: string)
  datatype Affected = Affected(ongoing: nat, missedAtt: nat)

  function Threshold(t: Thresholds): nat {
    match t
    case AffectedCount(n) => n
    case ActiveCount(minActive, _, _) => minActive
  }

  function Min(a: real, b: real): real {
    if a <= b then a else b
  }

  predicate TooMany(t: Thresholds, ongoing: nat, missed: nat) {
    match t
    case AffectedCount(n) => missed >= n
    case ActiveCount(_, share, minAffected) => missed as real >= Min(ongoing as real * share, minAffected as real)
  }

  function FindOperator(operators: seq<Operator>, id: int): Option<Operator> {
    if operators == [] then None else if operators[0].index == id then Some(operators[0]) else FindOperator(operators[1..], id)
  }

  function FindMissed(missed: seq<Missed>, op: Operator): Option<Missed> {
    if missed == [] then None
    else if missed[0].nosId == Some(op.index) && missed[0].moduleId == op.moduleId then Some(missed[0])
    else FindMissed(missed[1..], op)
  }

  /** An operator is looked up for every counted entry of the missed list, so an unknown one throws if there is one. */
  predicate Throws(s: NosStats, operators: seq<Operator>, missed: seq<Missed>) {
    (forall i :: 0 <= i < |operators| ==> operators[i].index != s.nosId) && exists i :: 0 <= i < |missed| && missed[i].nosId.Some?
  }

  /** The i-th operator is the first with this index. */
  predicate FirstOperator(operators: seq<Operator>, id: int, i: int) {
    0 <= i < |operators| && operators[i].index == id && forall j :: 0 <= j < i ==> operators[j].index != id
  }

  /** The k-th entry is the first for this operator of its module. */
  predicate FirstMissed(missed: seq<Missed>, op: Operator, k: int) {
    && 0 <= k < |missed| && missed[k].nosId == Some(op.index) && missed[k].moduleId == op.moduleId
    && forall j :: 0 <= j < k ==> missed[j].nosId != Some(op.index) || missed[j].moduleId != op.moduleId
  }

  /** The operator has enough validators to be looked at. */
  predicate LargeEnough(t: Thresholds, ongoing: nat) {
    match t
    case AffectedCount(n) => ongoing >= n
    case ActiveCount(minActive, _, _) => ongoing >= minActive
  }

  /** Enough of them missed: a fixed number, or either a share of them or a fixed number. */
  predicate OverThreshold(t: Thresholds, a: Affected) {
    match t
    case AffectedCount(n) => a.missedAtt >= n
    case ActiveCount(_, share, minAffected) => a.missedAtt as real >= a.ongoing as real * share || a.missedAtt >= minAffected
  }

  /** The operator of these statistics is reported, under this name and with these numbers. */
  ghost predicate Reports(s: NosStats, operators: seq<Operator>, missed: seq<Missed>, t: Thresholds, name: string, a: Affected) {
    && LargeEnough(t, s.activeOngoing) && OverThreshold(t, a)
    && exists i, k :: FirstOperator(operators, s.nosId, i) && FirstMissed(missed, operators[i], k)
                      && name == operators[i].name && a == Affected(s.activeOngoing, missed[k].amount)
  }

  lemma {:induction false} FindOperatorFinds(operators: seq<Operator>, id: int) returns (i: int)
    ensures if FindOperator(operators, id).Some? then FirstOperator(operators, id, i) && operators[i] == FindOperator(operators, id).value
            else forall j :: 0 <= j < |operators| ==> operators[j].index != id
  {
    i := 0;
    if operators != [] && operators[0].index != id {
      i := FindOperatorFinds(operators[1..], id);
      i := i + 1;
      assert forall j :: 0 < j < |operators| ==> operators[j] == operators[1..][j - 1];
    }
  }

  lemma {:induction false} FindMissedFinds(missed: seq<Missed>, op: Operator) returns (k: int)
    ensures if FindMissed(missed, op).Some? then FirstMissed(missed, op, k) && missed[k] == FindMissed(missed, op).value
            else forall j :: 0 <= j < |missed| ==> missed[j].nosId != Some(op.index) || missed[j].moduleId != op.moduleId
  {
    k := 0;
    if missed != [] && !(missed[0].nosId == Some(op.index) && missed[0].moduleId == op.moduleId) {
      k := FindMissedFinds(missed[1..], op);
      k := k + 1;
      assert forall j :: 0 < j < |missed| ==> missed[j] == missed[1..][j - 1];
    }
  }

  /** What one turn of the loop reports. */
  function Reported(s: NosStats, operators: seq<Operator>, missed: seq<Missed>, t: Thresholds): Option<(string, Affected)> {
    var op := FindOperator(operators, s.nosId);
    var m := if op.Some? then FindMissed(missed, op.value) else None;
    if s.activeOngoing >= Threshold(t) && m.Some? && TooMany(t, s.activeOngoing, m.value.amount)
    then Some((op.value.name, Affected(s.activeOngoing, m.value.amount))) else None
  }

  lemma ReportedIs(s: NosStats, operators: seq<Operator>, missed: seq<Missed>, t: Thresholds, name: string, a: Affected)
    ensures Reports(s, operators, missed, t, name, a) <==> Reported(s, operators, missed, t) == Some((name, a))
  {
    var i := FindOperatorFinds(operators, s.nosId);
    if FindOperator(operators, s.nosId).Some? {
      var k := FindMissedFinds(missed, operators[i]);
      hide FindOperator, FindMissed;
      if Reports(s, operators, missed, t, name, a) {
        var i', k' :| FirstOperator(operators, s.nosId, i') && FirstMissed(missed, operators[i'], k')
                      && name == operators[i'].name && a == Affected(s.activeOngoing, missed[k'].amount);
        SameFirst(operators, s.nosId, i, i');
        SameFirstMissed(missed, operators[i], k, k');
      }
      hide FirstOperator, FirstMissed;
    }
  }

  lemma SameFirst(operators: seq<Operator>, id: int, i: int, j: int)
    requires FirstOperator(operators, id, i) && FirstOperator(operators, id, j)
    ensures i == j
  {
  }

  lemma SameFirstMissed(missed: seq<Missed>, op: Operator, i: int, j: int)
    requires FirstMissed(missed, op, j)
    ensures FirstMissed(missed, op, i) ==> i == j
    ensures (forall k :: 0 <= k < |missed| ==> missed[k].nosId != Some(op.index) || missed[k].moduleId != op.moduleId) ==> false
  {
  }

  lemma UnknownOperator(s: NosStats, operators: seq<Operator>)
    ensures FindOperator(operators, s.nosId).None? <==> forall i :: 0 <= i < |operators| ==> operators[i].index != s.nosId
  {
    var i := FindOperatorFinds(operators, s.nosId);
  }

  /** Reports exactly the operators over the thresholds, each with its own numbers; fails exactly if one of the
      operators large enough is unknown while somebody missed attestations. */
  method AlertRule(stats: seq<NosStats>, operators: seq<Operator>, missed: seq<Missed>, t: Thresholds)
    returns (ok: bool, result: map<string, Affected>)
    ensures ok <==> forall i :: 0 <= i < |stats| && LargeEnough(t, stats[i].activeOngoing) ==> !Throws(stats[i], operators, missed)
    ensures ok ==> forall name :: name in result ==> exists i :: 0 <= i < |stats| && Reports(stats[i], operators, missed, t, name, result[name])
    ensures ok ==> forall i, name, a :: 0 <= i < |stats| && Reports(stats[i], operators, missed, t, name, a) ==> name in result
  {
    result := map[];
    hide FindOperator, FindMissed, Reports;
    for i := 0 to |stats|
      invariant forall j :: 0 <= j < i && LargeEnough(t, stats[j].activeOngoing) ==> !Throws(stats[j], operators, missed)
      invariant forall name :: name in result ==> exists j :: 0 <= j < i && Reports(stats[j], operators, missed, t, name, result[name])
      invariant forall j, name, a :: 0 <= j < i && Reports(stats[j], operators, missed, t, name, a) ==> name in result
    {
      var noStats := stats[i];
      forall name, a
        ensures Reports(noStats, operators, missed, t, name, a) <==> Reported(noStats, operators, missed, t) == Some((name, a))
      {
        ReportedIs(noStats, operators, missed, t, name, a);
      }
      UnknownOperator(noStats, operators);
      if noStats.activeOngoing < Threshold(t) {
        continue;
      }
      var operator := FindOperator(operators, noStats.nosId);
      if operator.None? {
        if exists k :: 0 <= k < |missed| && missed[k].nosId.Some? {
          ok := false;
          assert Throws(noStats, operators, missed);
          return;
        }
        continue;
      }
      var missedAtt := FindMissed(missed, operator.value);
      if missedAtt.None? {
        continue;
      }
      if TooMany(t, noStats.activeOngoing, missedAtt.value.amount) {
        var a := Affected(noStats.activeOngoing, missedAtt.value.amount);
        assert Reports(stats[i], operators, missed, t, operator.value.name, a);
        result := result[operator.value.name := a];
      }
    }
    ok := true;
  }

  // ---- when it is sent -------------------------------------------------------------------------

  const HOUR := 60 * 60 * 1000
  const DEFAULT_INTERVAL := 6 * HOUR
  const IF_INCREASED_INTERVAL := HOUR

  datatype Sent = Sent(timestamp: int, result: map<string, Affected>)

  function PrevTime(prev: Option<Sent>): int {
    if prev.Some? then prev.value.timestamp else 0
  }

  function PrevMissed(prev: Option<Sent>, operator: string): nat {
    if prev.Some? && operator in prev.value.result then prev.value.result[operator].missedAtt else 0
  }

  predicate Increased(prev: Option<Sent>, result: map<string, Affected>) {
    exists o :: o in result && result[o].missedAtt > PrevMissed(prev, o)
  }

  predicate ShouldSend(prev: Option<Sent>, result: map<string, Affected>, now: int) {
    && result != map[]
    && (now - PrevTime(prev) > DEFAULT_INTERVAL || (Increased(prev, result) && now - PrevTime(prev) > IF_INCREASED_INTERVAL))
  }

  type SentAlerts = map<string, Sent>

  function LastSent(sent: SentAlerts, alertname: string): Option<Sent> {
    if alertname in sent then Some(sent[alertname]) else None
  }

  /** One alert considered at one time. */
  datatype Try = Try(alertname: string, result: map<string, Affected>, now: int)

  function AfterTry(sent: SentAlerts, t: Try): SentAlerts {
    if ShouldSend(LastSent(sent, t.alertname), t.result, t.now) then sent[t.alertname := Sent(t.now, t.result)] else sent
  }

  function AfterTries(sent: SentAlerts, tries: seq<Try>): SentAlerts {
    if tries == [] then sent else AfterTry(AfterTries(sent, tries[..|tries| - 1]), tries[|tries| - 1])
  }

  class CriticalAlertsService {
    var sentAlerts: SentAlerts

    constructor ()
      ensures sentAlerts == map[]
    {
      sentAlerts := map[];
    }

    method SendRule(alertname: string, ruleResult: map<string, Affected>, now: int) returns (send: bool)
      ensures send <==> ShouldSend(LastSent(sentAlerts, alertname), ruleResult, now)
    {
      var prev := LastSent(sentAlerts, alertname);
      if ruleResult != map[] {
        if now - PrevTime(prev) > DEFAULT_INTERVAL {
          return true;
        }
        var todo := ruleResult.Keys;
        ghost var seen: set<string> := {};
        while todo != {}
          invariant seen + todo == ruleResult.Keys
          invariant forall o :: o in seen ==> !(ruleResult[o].missedAtt > PrevMissed(prev, o) && now - PrevTime(prev) > IF_INCREASED_INTERVAL)
        {
          var o := NextKey(todo);
          if ruleResult[o].missedAtt > PrevMissed(prev, o) && now - PrevTime(prev) > IF_INCREASED_INTERVAL {
            return true;
          }
          todo, seen := todo - {o}, seen + {o};
        }
      }
      send := false;
    }

    method Send(alerts: seq<Try>)
      modifies this
      ensures sentAlerts == AfterTries(old(sentAlerts), alerts)
    {
      for i := 0 to |alerts|
        invariant sentAlerts == AfterTries(old(sentAlerts), alerts[..i])
      {
        assert alerts[..i + 1][..i] == alerts[..i];
        var alert := alerts[i];
        var send := SendRule(alert.alertname, alert.result, alert.now);
        if send {
          sentAlerts := sentAlerts[alert.alertname := Sent(alert.now, alert.result)];
        }
      }
      assert alerts[..|alerts|] == alerts;
    }
  }

  // ---- throttling ------------------------------------------------------------------------------

  /** The times at which an alert was sent, over all rounds since the program started. */
  function SentTimes(tries: seq<Try>, alertname: string): seq<int> {
    if tries == [] then []
    else
      var init, last := tries[..|tries| - 1], tries[|tries| - 1];
      SentTimes(init, alertname)
      + if last.alertname == alertname && ShouldSend(LastSent(AfterTries(map[], init), alertname), last.result, last.now)
        then [last.now] else []
  }

  lemma {:induction false} LastTime(tries: seq<Try>, alertname: string)
    ensures var times := SentTimes(tries, alertname);
            var last := LastSent(AfterTries(map[], tries), alertname);
      (last.Some? <==> times != []) && (last.Some? ==> last.value.timestamp == times[|times| - 1])
  {
    if tries != [] {
      LastTime(tries[..|tries| - 1], alertname);
    }
  }

  /** Any two sends of an alert are more than an hour apart for each send from one to the other. */
  lemma {:induction false} SendsAreApart(tries: seq<Try>, alertname: string, i: nat, j: nat)
    requires i < j < |SentTimes(tries, alertname)|
    ensures SentTimes(tries, alertname)[j] - SentTimes(tries, alertname)[i] > (j - i) * HOUR
  {
    var init, last := tries[..|tries| - 1], tries[|tries| - 1];
    var times, before := SentTimes(tries, alertname), SentTimes(init, alertname);
    LastTime(init, alertname);
    if j < |before| {
      SendsAreApart(init, alertname, i, j);
    } else {
      assert times[j] - before[j - 1] > HOUR;
      if i < j - 1 {
        SendsAreApart(init, alertname, i, j - 1);
      }
    }
  }

  /** The sends of an alert within a span of time are at most one more than the hours of the span. */
  lemma SendsInSpan(tries: seq<Try>, alertname: string, span: nat, i: nat, j: nat)
    requires i <= j < |SentTimes(tries, alertname)|
    requires SentTimes(tries, alertname)[j] - SentTimes(tries, alertname)[i] <= span
    ensures j - i + 1 <= span / HOUR + 1
  {
    if i < j {
      SendsAreApart(tries, alertname, i, j);
    }
  }

  /** A non-empty result more than six hours after the last send is always sent. */
  lemma AlwaysSentAgain(tries: seq<Try>, t: Try)
    requires t.result != map[]
    requires var times := SentTimes(tries, t.alertname); t.now - (if times == [] then 0 else times[|times| - 1]) > DEFAULT_INTERVAL
    ensures SentTimes(tries + [t], t.alertname) == SentTimes(tries, t.alertname) + [t.now]
  {
    assert (tries + [t])[..|tries|] == tries;
    LastTime(tries, t.alertname);
  }

  // ---- exactly when an alert is sent -----------------------------------------------------------

  /** The k-th try was a send of the alert. */
  predicate SentAt(tries: seq<Try>, alertname: string, k: int) {
    && 0 <= k < |tries| && tries[k].alertname == alertname
    && SentTimes(tries[..k + 1], alertname) == SentTimes(tries[..k], alertname) + [tries[k].now]
  }

  predicate LastSentAt(tries: seq<Try>, alertname: string, k: int) {
    SentAt(tries, alertname, k) && forall j :: k < j < |tries| ==> !SentAt(tries, alertname, j)
  }

  /** Some operator of the result missed more than it did in the earlier one. */
  predicate Worse(result: map<string, Affected>, earlier: map<string, Affected>) {
    exists o :: o in result && result[o].missedAtt > if o in earlier then earlier[o].missedAtt else 0
  }

  lemma SentAtInit(init: seq<Try>, last: Try, alertname: string, k: int)
    requires 0 <= k < |init|
    ensures SentAt(init + [last], alertname, k) <==> SentAt(init, alertname, k)
  {
    assert (init + [last])[..k + 1] == init[..k + 1] && (init + [last])[..k] == init[..k];
    hide SentTimes;
  }

  /** One more try is a send exactly by the rule. */
  lemma OneMoreTry(tries: seq<Try>, t: Try, alertname: string)
    ensures SentAt(tries + [t], alertname, |tries|)
       <==> t.alertname == alertname && ShouldSend(LastSent(AfterTries(map[], tries), alertname), t.result, t.now)
  {
    var all := tries + [t];
    assert all[..|tries|] == tries && all[..|tries| + 1] == all;
    hide AfterTries, ShouldSend;
  }

  lemma {:induction false} LastSentIs(tries: seq<Try>, alertname: string, k: int)
    requires LastSentAt(tries, alertname, k)
    ensures LastSent(AfterTries(map[], tries), alertname) == Some(Sent(tries[k].now, tries[k].result))
  {
    hide SentAt, ShouldSend;
    SentAtBounds(tries, alertname, k);
    var init, last := tries[..|tries| - 1], tries[|tries| - 1];
    assert tries == init + [last];
    OneMoreTry(init, last, alertname);
    if k < |init| {
      SentAtInit(init, last, alertname, k);
      forall j | k < j < |init|
        ensures !SentAt(init, alertname, j)
      {
        SentAtInit(init, last, alertname, j);
      }
      LastSentIs(init, alertname, k);
      assert !SentAt(tries, alertname, |init|);
    }
  }

  lemma SentAtBounds(tries: seq<Try>, alertname: string, k: int)
    requires SentAt(tries, alertname, k)
    ensures 0 <= k < |tries|
  {
  }

  /** An alert is sent exactly if there is something to report and either six hours have passed since it was sent last, or one
      hour has and some operator is worse than it was then. An alert never sent counts as sent empty at time 0. */
  lemma SendsExactlyIf(tries: seq<Try>, t: Try, k: int)
    requires LastSentAt(tries, t.alertname, k) || (SentTimes(tries, t.alertname) == [] && k == -1)
    ensures var before, hour := if k == -1 then Try(t.alertname, map[], 0) else tries[k], 3_600_000;
      SentAt(tries + [t], t.alertname, |tries|)
      <==> && t.result != map[]
           && (t.now - before.now > 6 * hour || (t.now - before.now > hour && Worse(t.result, before.result)))
  {
    hide SentAt, SentTimes, AfterTries, LastSentAt, ShouldSend, Worse, LastSent;
    OneMoreTry(tries, t, t.alertname);
    if LastSentAt(tries, t.alertname, k) {
      LastIsSent(tries, t.alertname, k);
      LastSentIs(tries, t.alertname, k);
      RuleIs(Some(Sent(tries[k].now, tries[k].result)), t.result, t.now);
    } else {
      NeverSent(tries, t.alertname);
      RuleIs(None, t.result, t.now);
    }
  }

  lemma LastIsSent(tries: seq<Try>, alertname: string, k: int)
    requires LastSentAt(tries, alertname, k)
    ensures 0 <= k < |tries|
  {
  }

  lemma NeverSent(tries: seq<Try>, alertname: string)
    requires SentTimes(tries, alertname) == []
    ensures LastSent(AfterTries(map[], tries), alertname) == None
  {
    LastTime(tries, alertname);
  }

  lemma RuleIs(prev: Option<Sent>, result: map<string, Affected>, now: int)
    ensures var before, hour := prev.GetOr(Sent(0, map[])), 3_600_000;
      ShouldSend(prev, result, now)
      <==> result != map[] && (now - before.timestamp > 6 * hour || (now - before.timestamp > hour && Worse(result, before.result)))
  {
    var before := prev.GetOr(Sent(0, map[]));
    assert forall o :: o in result ==> PrevMissed(prev, o) == if o in before.result then before.result[o].missedAtt else 0;
  }
}
