/** The alert manager's duplicate suppression: a trade id may raise an alert only when it has
    not done so within the cooldown period.  The clock is a parameter (`now`, in seconds). */
module Alerts {

  /** Seconds that must pass before the same trade id may alert again. */
  const CooldownSeconds: real := 5.0

  /** The cooldown decision for `tradeId` at time `now`, with the map of last alert times it
      leaves behind.  A refused check leaves the map as it was, so it does not restart the
      cooldown. */
  function CooldownCheck(cooldown: map<int, real>, period: real, tradeId: int, now: real): (r: (bool, map<int, real>))
    ensures r.0 <==> tradeId !in cooldown || now - cooldown[tradeId] >= period
    ensures r.0 ==> tradeId in r.1 && r.1[tradeId] == now
    ensures !r.0 ==> r.1 == cooldown
    ensures r.1.Keys == cooldown.Keys + {tradeId} || r.1 == cooldown
    ensures forall id :: id != tradeId && id in cooldown ==> id in r.1 && r.1[id] == cooldown[id]
  {
    if tradeId in cooldown && now - cooldown[tradeId] < period then (false, cooldown)
    else (true, cooldown[tradeId := now])
  }

  /** Once a trade id has alerted at `t`, it is refused at any time less than one period
      later, and allowed again from one full period on. */
  lemma CooldownWindow(cooldown: map<int, real>, period: real, tradeId: int, t: real, later: real)
    requires CooldownCheck(cooldown, period, tradeId, t).0
    ensures var after := CooldownCheck(cooldown, period, tradeId, t).1;
      CooldownCheck(after, period, tradeId, later).0 <==> later - t >= period
  {
  }

  /** One call of the check: which trade id, and when. */
  datatype CooldownCall = CooldownCall(tradeId: int, now: real)

  /** The trade ids a run of checks asks about. */
  function CheckedIds(calls: seq<CooldownCall>): set<int>
  {
    set i | 0 <= i < |calls| :: calls[i].tradeId
  }

  /** The outcomes of a run of checks on a fresh manager, and the map it ends with: every
      trade id that was checked stays recorded, and no other. */
  function Replay(period: real, calls: seq<CooldownCall>): (r: (seq<bool>, map<int, real>))
    ensures |r.0| == |calls|
    ensures r.1.Keys == CheckedIds(calls)
  {
    if calls == [] then ([], map[])
    else
      var init := calls[..|calls| - 1];
      var prev := Replay(period, init);
      var c := calls[|calls| - 1];
      var step := CooldownCheck(prev.1, period, c.tradeId, c.now);
      assert CheckedIds(calls) == CheckedIds(init) + {c.tradeId} by {
        forall i | 0 <= i < |init| ensures init[i] == calls[i] { }
      }
      (prev.0 + [step.0], step.1)
  }

  /** Every allowed call of a run is remembered at its own time or a later one. */
  lemma {:induction false} ReplayRemembers(period: real, calls: seq<CooldownCall>)
    requires period >= 0.0
    ensures var r := Replay(period, calls);
      forall i :: 0 <= i < |calls| && r.0[i] ==>
        calls[i].tradeId in r.1 && r.1[calls[i].tradeId] >= calls[i].now
  {
    if calls != [] {
      var n := |calls|;
      var init := calls[..n - 1];
      ReplayRemembers(period, init);
      var prev := Replay(period, init);
      var r := Replay(period, calls);
      forall i | 0 <= i < n && r.0[i]
        ensures calls[i].tradeId in r.1 && r.1[calls[i].tradeId] >= calls[i].now
      {
        if i < n - 1 {
          assert r.0[i] == prev.0[i] && calls[i] == init[i];
        }
      }
    }
  }

  /** Two alerts for the same trade id in one run are at least one cooldown period apart. */
  lemma {:induction false} AlertsSpaced(period: real, calls: seq<CooldownCall>, i: int, j: int)
    requires period >= 0.0
    requires 0 <= i < j < |calls|
    requires calls[i].tradeId == calls[j].tradeId
    requires Replay(period, calls).0[i] && Replay(period, calls).0[j]
    ensures calls[j].now - calls[i].now >= period
  {
    var init := calls[..j];
    assert init[i] == calls[i];
    AllowedAt(period, calls, j);
    ReplayPrefix(period, calls, j);
    ReplayRemembers(period, init);
  }

  /** A call's outcome is the check against the map left by the calls before it. */
  lemma AllowedAt(period: real, calls: seq<CooldownCall>, j: int)
    requires 0 <= j < |calls|
    ensures Replay(period, calls).0[j]
        == CooldownCheck(Replay(period, calls[..j]).1, period, calls[j].tradeId, calls[j].now).0
  {
    var run := calls[..j + 1];
    assert run[..j] == calls[..j] && run[j] == calls[j];
    ReplayPrefix(period, calls, j + 1);
  }

  /** The outcomes of a prefix of a run are the first outcomes of the run. */
  lemma {:induction false} ReplayPrefix(period: real, calls: seq<CooldownCall>, k: int)
    requires 0 <= k <= |calls|
    ensures Replay(period, calls[..k]).0 == Replay(period, calls).0[..k]
    decreases |calls|
  {
    if k < |calls| {
      var init := calls[..|calls| - 1];
      assert init[..k] == calls[..k];
      ReplayPrefix(period, init, k);
      assert Replay(period, calls).0[..|calls| - 1] == Replay(period, init).0;
    } else {
      assert calls[..k] == calls;
    }
  }

  /** The alert manager's cooldown state.  Sending to the alert channels is not modelled. */
  class AlertManager {
    /** Last alert time per trade id. */
    var alertCooldown: map<int, real>
    const cooldownPeriod: real

    constructor()
      ensures alertCooldown == map[] && cooldownPeriod == CooldownSeconds
    {
      alertCooldown := map[];
      cooldownPeriod := CooldownSeconds;
    }

    /** Whether `tradeId` may alert at `now`; if so, `now` becomes its last alert time. */
    method CheckAlertCooldown(tradeId: int, now: real) returns (ok: bool)
      modifies this
      ensures (ok, alertCooldown) == CooldownCheck(old(alertCooldown), cooldownPeriod, tradeId, now)
      ensures ok <==> tradeId !in old(alertCooldown) || now - old(alertCooldown)[tradeId] >= cooldownPeriod
      ensures ok ==> alertCooldown == old(alertCooldown)[tradeId := now]
      ensures !ok ==> alertCooldown == old(alertCooldown)
    {
      if tradeId in alertCooldown && now - alertCooldown[tradeId] < cooldownPeriod {
        return false;
      }
      alertCooldown := alertCooldown[tradeId := now];
      return true;
    }
  }
}
