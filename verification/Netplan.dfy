/** Rate-limited `netplan apply`. A successful command leaves the time, in decimal, in a stamp file,
    and no command runs within two minutes of the stamp. Writing the file can stop anywhere, so the
    stamp may hold any prefix of the text. Times are nanoseconds since the epoch. */
module Netplan {
  import opened Wrappers
  import opened Decimal

  const SECOND := 1_000_000_000
  const COOLDOWN_SECONDS := 120

  function Seconds(t: nat): nat {
    t / SECOND
  }

  /** A command that ran and succeeded: the second it started in and, if the stamp was written whole,
      the second written. */
  datatype Apply = Apply(start: nat, stamped: Option<nat>)

  /** The stamp file (absent, or its content), the clock, and every command that ran. */
  datatype State = State(stamp: Option<string>, now: nat, applies: seq<Apply>)

  /** How an attempt ends, if nothing stops it before: the stamp cannot be read, the command fails,
      the stamp file cannot be opened, its write stops after some characters, or all is well. */
  datatype Ending = ReadFails | CommandFails | OpenFails | Torn(written: nat) | Completes

  /** The stamp as a number; an absent or empty file counts as zero, other text may be unreadable. */
  function StampValue(stamp: Option<string>): Option<int> {
    match stamp
    case None => Some(0)
    case Some(text) => if text == "" then Some(0) else Atoi(text)
  }

  predicate CoolingDown(stamp: int, now: nat) {
    (stamp + COOLDOWN_SECONDS) * SECOND > now
  }

  predicate RunsCommand(s: State, checked: nat, ending: Ending) {
    && !ending.ReadFails? && !ending.CommandFails?
    && StampValue(s.stamp).Some? && !CoolingDown(StampValue(s.stamp).value, checked)
  }

  /** One attempt that checks the clock at `checked` and, if it gets there, takes the time it writes at
      `written`. */
  function Attempt(s: State, checked: nat, written: nat, ending: Ending): State
    requires s.now <= checked <= written
  {
    if !RunsCommand(s, checked, ending) then s.(now := written)
    else
      var text := Itoa(Seconds(written));
      var stamped := if ending.Completes? then Some(Seconds(written)) else None;
      State(
        match ending
        case Completes => Some(text)
        case Torn(k) => Some(if k < |text| then text[..k] else text)
        case _ => s.stamp,
        written,
        s.applies + [Apply(Seconds(checked), stamped)])
  }

  /** What one attempt can make of the state. */
  ghost predicate Attempted(before: State, after: State) {
    exists checked: nat, written: nat, ending ::
      before.now <= checked <= written && after == Attempt(before, checked, written, ending)
  }

  /** An attempt in which no call failed: the command ran and its stamp was written, unless the stamp was
      unreadable or too recent. */
  ghost predicate Applied(before: State, after: State) {
    exists checked: nat, written: nat ::
      before.now <= checked <= written && after == Attempt(before, checked, written, Completes)
  }

  // ------------------------------------------------------------------- the invariant

  /** The stamp is readable and not in the future. */
  predicate Healthy(s: State) {
    StampValue(s.stamp).Some? && 0 <= StampValue(s.stamp).value <= Seconds(s.now)
  }

  /** Each whole stamp still holds back the next command, or its two minutes are over. */
  predicate Held(s: State) {
    forall i | 0 <= i < |s.applies| && s.applies[i].stamped.Some? ::
      || s.applies[i].stamped.value <= StampValue(s.stamp).GetOr(-1)
      || s.applies[i].stamped.value + COOLDOWN_SECONDS <= Seconds(s.now)
  }

  predicate Ordered(a: Apply, now: nat) {
    a.start <= Seconds(now) && (a.stamped.Some? ==> a.start <= a.stamped.value <= Seconds(now))
  }

  /** Every command after a whole stamp starts at least two minutes after it. */
  predicate Separated(applies: seq<Apply>) {
    forall i, j | 0 <= i < j < |applies| && applies[i].stamped.Some? ::
      applies[i].stamped.value + COOLDOWN_SECONDS <= applies[j].start
  }

  predicate Inv(s: State) {
    && Healthy(s) && Held(s) && Separated(s.applies)
    && forall i | 0 <= i < |s.applies| :: Ordered(s.applies[i], s.now)
  }

  lemma SecondsMonotone(s: nat, t: nat)
    requires s <= t
    ensures Seconds(s) <= Seconds(t)
  {
  }

  lemma CooledDown(stamp: int, now: nat)
    requires !CoolingDown(stamp, now)
    ensures stamp + COOLDOWN_SECONDS <= Seconds(now)
  {
  }

  /** Whatever part of the text reaches the disk, it reads as a time no later than the one written. */
  lemma TornStampReads(second: nat, k: nat)
    ensures var text := Itoa(second);
            var stamp := StampValue(Some(if k < |text| then text[..k] else text));
            && stamp.Some? && 0 <= stamp.value <= second
            && (k >= |text| ==> stamp.value == second)
  {
    var text := Itoa(second);
    AtoiItoa(second);
    DigitsValue(second);
    if 0 < k < |text| {
      AtoiPrefix(second, k);
    }
  }

  lemma AttemptKeepsInv(s: State, checked: nat, written: nat, ending: Ending)
    requires Inv(s) && s.now <= checked <= written
    ensures Inv(Attempt(s, checked, written, ending))
  {
    var r := Attempt(s, checked, written, ending);
    SecondsMonotone(s.now, checked);
    SecondsMonotone(checked, written);
    if RunsCommand(s, checked, ending) {
      CooledDown(StampValue(s.stamp).value, checked);
      var text := Itoa(Seconds(written));
      TornStampReads(Seconds(written), if ending.Torn? then ending.written else |text|);
      assert forall i | 0 <= i < |s.applies| :: r.applies[i] == s.applies[i];
    }
  }

  /** A run of the program as the states between attempts. */
  ghost predicate Execution(states: seq<State>) {
    && states != [] && states[0].applies == [] && Healthy(states[0])
    && forall i | 0 <= i < |states| - 1 :: Attempted(states[i], states[i + 1])
  }

  lemma {:induction false} Reachable(states: seq<State>, i: nat)
    requires Execution(states) && i < |states|
    ensures Inv(states[i])
    decreases i
  {
    if i > 0 {
      Reachable(states, i - 1);
      assert Attempted(states[i - 1], states[i - 1 + 1]);
      var checked: nat, written: nat, ending :|
        states[i - 1].now <= checked <= written && states[i] == Attempt(states[i - 1], checked, written, ending);
      AttemptKeepsInv(states[i - 1], checked, written, ending);
    }
  }

  /** Over any run, and whichever attempts failed in between, a command never starts within two minutes
      of an earlier whole stamp. */
  lemma AppliesAreSeparated(states: seq<State>, k: nat, i: nat, j: nat)
    requires Execution(states) && k < |states| && i < j < |states[k].applies|
    requires states[k].applies[i].stamped.Some?
    ensures states[k].applies[i].start + COOLDOWN_SECONDS
            <= states[k].applies[i].stamped.value + COOLDOWN_SECONDS
            <= states[k].applies[j].start
  {
    Reachable(states, k);
    assert Ordered(states[k].applies[i], states[k].now);
  }

  /** The stamp never wedges the loop: in every reachable state it can be read, and two minutes after
      the clock nothing but a failing call keeps the command from running. */
  lemma StampNeverWedges(states: seq<State>, k: nat, checked: nat, ending: Ending)
    requires Execution(states) && k < |states|
    requires checked >= states[k].now + COOLDOWN_SECONDS * SECOND
    ensures StampValue(states[k].stamp).Some?
    ensures 0 <= StampValue(states[k].stamp).value <= Seconds(states[k].now)
    ensures RunsCommand(states[k], checked, ending) <==> !ending.ReadFails? && !ending.CommandFails?
  {
    Reachable(states, k);
  }

  lemma AttemptMovesStamp(before: State, after: State)
    requires Attempted(before, after)
    ensures before.now <= after.now && before.applies <= after.applies
    ensures |after.applies| == |before.applies| ==> after.stamp == before.stamp
  {
  }

  /** Over any stretch of a run in which no command succeeded, however many were tried, the stamp stays. */
  lemma {:induction false} FailuresKeepStamp(states: seq<State>, i: nat, j: nat)
    requires Execution(states) && i <= j < |states|
    ensures states[i].applies <= states[j].applies
    ensures states[i].applies == states[j].applies ==> states[i].stamp == states[j].stamp
    decreases j
  {
    if i < j {
      FailuresKeepStamp(states, i, j - 1);
      assert Attempted(states[j - 1], states[j - 1 + 1]);
      AttemptMovesStamp(states[j - 1], states[j]);
    }
  }

  // ------------------------------------------------------------------- the rate bound

  predicate InWindow(a: Apply, from: nat, width: nat) {
    a.stamped.Some? && from <= a.start < from + width
  }

  /** How many whole-stamped commands start within `width` seconds from `from`. */
  function CountInWindow(applies: seq<Apply>, from: nat, width: nat): nat {
    if applies == [] then 0
    else
      var front, last := applies[..|applies| - 1], applies[|applies| - 1];
      CountInWindow(front, from, width) + if InWindow(last, from, width) then 1 else 0
  }

  predicate StampsFollowStarts(applies: seq<Apply>) {
    forall i | 0 <= i < |applies| && applies[i].stamped.Some? :: applies[i].start <= applies[i].stamped.value
  }

  /** If n commands start in the window, the last of them starts 120 * (n - 1) seconds into it. */
  lemma {:induction false} LastInWindow(applies: seq<Apply>, from: nat, width: nat) returns (last: nat)
    requires Separated(applies) && StampsFollowStarts(applies) && CountInWindow(applies, from, width) > 0
    ensures last < |applies| && InWindow(applies[last], from, width)
    ensures from + COOLDOWN_SECONDS * (CountInWindow(applies, from, width) - 1) <= applies[last].start
  {
    var front, a := applies[..|applies| - 1], applies[|applies| - 1];
    var n := CountInWindow(front, from, width);
    if n > 0 {
      last := LastInWindow(front, from, width);
      if InWindow(a, from, width) {
        assert applies[last].stamped.value + COOLDOWN_SECONDS <= a.start;
        last := |applies| - 1;
      }
    } else {
      last := |applies| - 1;
    }
  }

  /** Any window of W whole seconds sees at most W/120 + 1 whole-stamped commands. */
  lemma RateBound(states: seq<State>, k: nat, from: nat, width: nat)
    requires Execution(states) && k < |states|
    ensures CountInWindow(states[k].applies, from, width) <= width / COOLDOWN_SECONDS + 1
  {
    Reachable(states, k);
    var applies := states[k].applies;
    assert forall i | 0 <= i < |applies| :: Ordered(applies[i], states[k].now);
    if CountInWindow(applies, from, width) > 0 {
      var last := LastInWindow(applies, from, width);
    }
  }

  // ------------------------------------------------------------------- in plain numbers

  /** When all calls succeed, exactly when the command runs: at least 120 seconds after the second in the
      stamp, or at any time without one; it leaves the second of the clock. Other text stops it. */
  lemma AppliedLiterally(s: State, checked: nat, written: nat, t: nat)
    requires s.now <= checked <= written
    ensures s.stamp == Some(Itoa(t)) ==>
              Attempt(s, checked, written, Completes) ==
              if checked < (t + 120) * 1_000_000_000 then s.(now := written)
              else State(Some(Itoa(written / 1_000_000_000)), written,
                         s.applies + [Apply(checked / 1_000_000_000, Some(written / 1_000_000_000))])
    ensures s.stamp in [None, Some("")] && checked >= 120_000_000_000 ==>
              Attempt(s, checked, written, Completes) ==
              State(Some(Itoa(written / 1_000_000_000)), written,
                    s.applies + [Apply(checked / 1_000_000_000, Some(written / 1_000_000_000))])
    ensures s.stamp.Some? && s.stamp.value != "" && Atoi(s.stamp.value).None? ==>
              Attempt(s, checked, written, Completes) == s.(now := written)
  {
    DigitsValue(t);
    AtoiItoa(t);
  }
}
