/**
 * How long the stations are granted for their HE TB PPDUs once a Basic
 * Trigger Frame has fitted into the TXOP (the common tail of every
 * `TrySendingBasicTf` variant). Times are integers in ns-3 time steps; the
 * timing oracles (`TryAddMpdu`, `CalculateTxDuration`) are left outside and
 * their results come in as parameters.
 */
module Grant {
  import opened Wrappers

  datatype Decision = NoTx | Grant(duration: int)

  /**
   * The longest grant the TXOP allows: the maximum PPDU duration, cut down to
   * what remains of the available time once protection, the trigger frame,
   * a SIFS and the acknowledgment are paid for. `None` stands for
   * `Time::Min()`, an unlimited TXOP.
   */
  function MaxDuration(ppduMaxTime: int, availableTime: Option<int>, overhead: int): int
  {
    match availableTime
    case None => ppduMaxTime
    case Some(t) => if t - overhead < ppduMaxTime then t - overhead else ppduMaxTime
  }

  /** `bufferTxTime`: the longest per-user duration, starting from 0. */
  function Longest(durations: seq<int>): int
  {
    if durations == [] then 0
    else
      var m := Longest(durations[..|durations| - 1]);
      var d := durations[|durations| - 1];
      if m < d then d else m
  }

  /**
   * `minDuration`: a fold that restarts from every zero it meets, as
   * `minDuration.IsZero() ? duration : Min(minDuration, duration)` does.
   */
  function MinFold(durations: seq<int>): int
  {
    if durations == [] then 0
    else
      var m := MinFold(durations[..|durations| - 1]);
      var d := durations[|durations| - 1];
      if m == 0 then d else if d < m then d else m
  }

  /** The decision, as a function of the oracles' answers. */
  function Decide(ppduMaxTime: int, availableTime: Option<int>, overhead: int,
                  bufferDurations: seq<int>, psduDurations: seq<int>): Decision
  {
    var maxDuration := MaxDuration(ppduMaxTime, availableTime, overhead);
    if availableTime.Some? && maxDuration < 0 then NoTx
    else if Longest(bufferDurations) < maxDuration then Grant(Longest(bufferDurations))
    else if maxDuration < MinFold(psduDurations) then NoTx
    else Grant(maxDuration)
  }

  /**
   * The duration step of `TrySendingBasicTf`: the two folds over the users of
   * the trigger frame and the choice between them.
   */
  method ChooseDuration(ppduMaxTime: int, availableTime: Option<int>, overhead: int,
                        bufferDurations: seq<int>, psduDurations: seq<int>)
    returns (decision: Decision)
    ensures decision == Decide(ppduMaxTime, availableTime, overhead, bufferDurations, psduDurations)
  {
    var maxDuration := ppduMaxTime;
    if availableTime.Some? {
      var remaining := availableTime.value - overhead;
      maxDuration := if remaining < maxDuration then remaining else maxDuration;
      if maxDuration < 0 {
        return NoTx;
      }
    }
    var bufferTxTime := 0;
    var i := 0;
    while i < |bufferDurations|
      invariant 0 <= i <= |bufferDurations|
      invariant bufferTxTime == Longest(bufferDurations[..i])
    {
      assert bufferDurations[..i + 1][..i] == bufferDurations[..i];
      if bufferTxTime < bufferDurations[i] {
        bufferTxTime := bufferDurations[i];
      }
      i := i + 1;
    }
    assert bufferDurations[..i] == bufferDurations;
    if bufferTxTime < maxDuration {
      decision := Grant(bufferTxTime);
    } else {
      var minDuration := 0;
      var j := 0;
      while j < |psduDurations|
        invariant 0 <= j <= |psduDurations|
        invariant minDuration == MinFold(psduDurations[..j])
      {
        assert psduDurations[..j + 1][..j] == psduDurations[..j];
        var duration := psduDurations[j];
        minDuration := if minDuration == 0 then duration
                       else if duration < minDuration then duration else minDuration;
        j := j + 1;
      }
      assert psduDurations[..j] == psduDurations;
      if maxDuration < minDuration {
        decision := NoTx;
      } else {
        decision := Grant(maxDuration);
      }
    }
  }

  lemma {:induction false} LongestIsMax(durations: seq<int>)
    ensures Longest(durations) >= 0
    ensures forall i :: 0 <= i < |durations| ==> durations[i] <= Longest(durations)
  {
    if durations != [] {
      var n := |durations|;
      LongestIsMax(durations[..n - 1]);
      assert forall i :: 0 <= i < n - 1 ==> durations[..n - 1][i] == durations[i];
    }
  }

  /** With every duration positive, the restarting fold is the plain minimum. */
  lemma {:induction false} MinFoldIsMin(durations: seq<int>)
    requires forall i :: 0 <= i < |durations| ==> durations[i] > 0
    ensures durations != [] ==> exists i :: 0 <= i < |durations| && MinFold(durations) == durations[i]
    ensures forall i :: 0 <= i < |durations| ==> MinFold(durations) <= durations[i]
  {
    if durations != [] {
      var n := |durations|;
      var init := durations[..n - 1];
      assert forall i :: 0 <= i < n - 1 ==> init[i] == durations[i];
      MinFoldIsMin(init);
      if MinFold(durations) == durations[n - 1] {
        assert 0 <= n - 1 < n;
      } else {
        assert init != [];
        var i :| 0 <= i < |init| && MinFold(init) == init[i];
        assert MinFold(durations) == durations[i];
      }
    }
  }

  /**
   * A grant is never negative, never longer than the maximum PPDU duration
   * and, with a limited TXOP, never longer than what is left of it.
   */
  lemma GrantFits(ppduMaxTime: int, availableTime: Option<int>, overhead: int,
                  bufferDurations: seq<int>, psduDurations: seq<int>)
    requires Decide(ppduMaxTime, availableTime, overhead, bufferDurations, psduDurations).Grant?
    ensures var d := Decide(ppduMaxTime, availableTime, overhead, bufferDurations, psduDurations).duration;
            d <= ppduMaxTime &&
            (availableTime.Some? ==> d <= availableTime.value - overhead) &&
            (availableTime.Some? || ppduMaxTime >= 0 ==> d >= 0)
  {
    LongestIsMax(bufferDurations);
  }

  /**
   * What a grant buys the stations: either every station's buffer fits in it
   * or, when the per-station durations are positive, at least one station
   * can send `UlPsduSize` octets.
   */
  lemma {:induction false} GrantServes(ppduMaxTime: int, availableTime: Option<int>, overhead: int,
                                       bufferDurations: seq<int>, psduDurations: seq<int>)
    requires Decide(ppduMaxTime, availableTime, overhead, bufferDurations, psduDurations).Grant?
    requires psduDurations != []
    requires forall i :: 0 <= i < |psduDurations| ==> psduDurations[i] > 0
    ensures var d := Decide(ppduMaxTime, availableTime, overhead, bufferDurations, psduDurations).duration;
            (forall i :: 0 <= i < |bufferDurations| ==> bufferDurations[i] <= d) ||
            (exists i :: 0 <= i < |psduDurations| && psduDurations[i] <= d)
  {
    LongestIsMax(bufferDurations);
    MinFoldIsMin(psduDurations);
  }
}
