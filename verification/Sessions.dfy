/** The web server's session manager: an in-memory map of scheduled events and the session columns of
    the instances table, kept in agreement under one mutex while any call may fail. */
module Sessions {
  import opened Wrappers

  type Id = string
  type Token = string

  // Times are nanoseconds, as in a duration.
  const MINUTE := 60_000_000_000
  const REMINDER_WINDOW := 30 * MINUTE

  datatype SessionEvent = SessionEvent(endTime: int, token: Token)

  /** The session columns of an instance. `endTime` is the time last written; the column has no zone,
      so a read of it yields `readBack(endTime)` for some function nothing is known about. */
  datatype Row = Row(startTime: Option<int>, endTime: Option<int>, reminderSent: bool, token: Option<Token>)

  const NO_SESSION := Row(None, None, false, None)

  /** What is worth remembering of an instance: a session started or renewed at a time for some minutes, a
      reminder mailed so long before the end, a reminder flag that could not be written, a stop sent at a
      time for an end time read, ... */
  datatype Happening =
    | Started(at: int, minutes: int)
    | Renewed(at: int, minutes: int)
    | Reminded(left: int)
    | FlagLost
    | StopSent(now: int, readEnd: int)
    | Adopted

  /** All that concerns one instance. */
  datatype Slice = Slice(event: Option<SessionEvent>, row: Option<Row>, history: seq<Happening>)

  /** Which calls made for one event during one tick succeed. */
  datatype Calls = Calls(
    mailFound: bool, mailSent: bool, flagWritten: bool, endRead: bool, stopAccepted: bool, cleared: bool)

  // ----- One instance, one step

  function Remind(s: Slice, left: int, c: Calls): Slice {
    if left > REMINDER_WINDOW || s.row.None? || !c.mailFound || s.row.value.reminderSent || !c.mailSent then s
    else if c.flagWritten then
      s.(row := Some(s.row.value.(reminderSent := true)), history := s.history + [Reminded(left)])
    else s.(history := s.history + [Reminded(left)] + [FlagLost])
  }

  function Expire(s: Slice, now: int, c: Calls, readBack: int -> int): Slice
    requires s.event.Some?
  {
    if s.row.None? || s.row.value.endTime.None? || !c.endRead then s
    else
      var current := readBack(s.row.value.endTime.value);
      if current != s.event.value.endTime then
        s.(event := Some(s.event.value.(endTime := current)), history := s.history + [Adopted])
      else
        var sent := s.(history := s.history + [StopSent(now, current)]);
        if c.stopAccepted && c.cleared then sent.(event := None, row := Some(NO_SESSION)) else sent
  }

  function Monitor(s: Slice, now: int, c: Calls, readBack: int -> int): Slice {
    if s.event.None? then s
    else
      var left := s.event.value.endTime - now;
      if left > 0 then Remind(s, left, c)
      else if left < 0 then Expire(s, now, c, readBack)
      else s
  }

  /** `duration` is the configured number of minutes, if it is a number; `found` and `stored` say
      whether the user's mail could be read and the row written. */
  function Begin(s: Slice, token: Token, now: int, duration: Option<int>, found: bool, stored: bool): Slice {
    if duration.None? || s.row.None? || !found || !stored then s
    else
      var end := now + duration.value * MINUTE;
      Slice(Some(SessionEvent(end, token)), Some(Row(Some(now), Some(end), false, Some(token))),
            s.history + [Started(now, duration.value)])
  }

  function End(s: Slice, cleared: bool): Slice {
    s.(event := None, row := if s.row.Some? && cleared then Some(NO_SESSION) else s.row)
  }

  function Renew(s: Slice, now: int, duration: Option<int>, stored: bool): Slice {
    if s.event.None? || duration.None? || !stored then s
    else
      var end := now + duration.value * MINUTE;
      Slice(Some(s.event.value.(endTime := end)),
            if s.row.None? then None
            else Some(Row(s.row.value.startTime, Some(end), false, Some(s.event.value.token))),
            s.history + [Renewed(now, duration.value)])
  }

  /** Everything that can happen to an instance between two releases of the mutex. A row is added
      under an id no row and no event has. */
  datatype Step =
    | Tick(now: int, calls: Calls)
    | Start(token: Token, now: int, duration: Option<int>, found: bool, stored: bool)
    | Stop(cleared: bool)
    | Renewal(now: int, duration: Option<int>, stored: bool)
    | AddRow
    | DeleteRow

  function Advance(s: Slice, step: Step, readBack: int -> int): Slice {
    match step
    case Tick(now, calls) => Monitor(s, now, calls, readBack)
    case Start(token, now, duration, found, stored) => Begin(s, token, now, duration, found, stored)
    case Stop(cleared) => End(s, cleared)
    case Renewal(now, duration, stored) => Renew(s, now, duration, stored)
    case AddRow => if s.event.None? && s.row.None? then s.(row := Some(NO_SESSION)) else s
    case DeleteRow => s.(row := None)
  }

  function Run(s: Slice, steps: seq<Step>, readBack: int -> int): Slice
    decreases |steps|
  {
    if steps == [] then s else Run(Advance(s, steps[0], readBack), steps[1..], readBack)
  }

  // ----- What holds of one instance

  /** The event has its row's token, and its end time is the one last written or its read-back. */
  predicate Agrees(s: Slice, readBack: int -> int) {
    s.event.Some? && s.row.Some? ==>
      && s.row.value.token == Some(s.event.value.token)
      && s.row.value.endTime.Some?
      && s.event.value.endTime in {s.row.value.endTime.value, readBack(s.row.value.endTime.value)}
  }

  function Mails(h: seq<Happening>): nat {
    if h == [] then 0 else Mails(h[..|h| - 1]) + if h[|h| - 1].Reminded? then 1 else 0
  }

  /** Successful starts, renewals and failed writes of the reminder flag. */
  function Causes(h: seq<Happening>): nat {
    if h == [] then 0
    else
      var last := h[|h| - 1];
      Causes(h[..|h| - 1]) + if last.Started? || last.Renewed? || last.FlagLost? then 1 else 0
  }

  /** Adoptions of a stored end time since the last start or renewal. */
  function Adoptions(h: seq<Happening>): nat {
    if h == [] then 0
    else
      var last := h[|h| - 1];
      if last.Started? || last.Renewed? then 0
      else Adoptions(h[..|h| - 1]) + if last.Adopted? then 1 else 0
  }

  /** A mail goes out within the half hour before the end, a stop only after the end time read. */
  predicate InTime(x: Happening) {
    && (x.Reminded? ==> 0 < x.left <= 1_800_000_000_000)
    && (x.StopSent? ==> x.now > x.readEnd)
  }

  predicate AllInTime(h: seq<Happening>) { forall x | x in h :: InTime(x) }

  /** When the session last started or renewed is to end. */
  function Due(h: seq<Happening>): Option<int> {
    if h == [] then None
    else
      var last := h[|h| - 1];
      if last.Started? || last.Renewed? then Some(last.at + last.minutes * 60_000_000_000) else Due(h[..|h| - 1])
  }

  /** An event ends when its session is due, or at what the database makes of that time; an instance's row
      has the former. */
  predicate EndsWhenDue(s: Slice, readBack: int -> int) {
    s.event.Some? ==>
      && Due(s.history).Some?
      && s.event.value.endTime in {Due(s.history).value, readBack(Due(s.history).value)}
      && (s.row.Some? ==> s.row.value.endTime == Due(s.history))
  }

  /** The `k`th entry, if it is a stop, was sent past what the database makes of the time the session was due. */
  predicate StopIsDue(h: seq<Happening>, k: nat, readBack: int -> int)
    requires k < |h|
  {
    h[k].StopSent? ==> Due(h[..k]).Some? && h[k].readEnd == readBack(Due(h[..k]).value) && h[k].now > h[k].readEnd
  }

  predicate StopsAreDue(h: seq<Happening>, readBack: int -> int) {
    forall k | 0 <= k < |h| :: StopIsDue(h, k, readBack)
  }

  /** Whether a reminder may still go out before the next start or renewal. */
  function Pending(s: Slice): nat {
    if s.event.Some? && s.row.Some? && !s.row.value.reminderSent then 1 else 0
  }

  predicate Good(s: Slice, readBack: int -> int) {
    && Agrees(s, readBack)
    && Mails(s.history) + Pending(s) <= Causes(s.history)
    && AllInTime(s.history)
    && Adoptions(s.history) <= 1
    && (Adoptions(s.history) == 1 && s.event.Some? && s.row.Some? && s.row.value.endTime.Some? ==>
          s.event.value.endTime == readBack(s.row.value.endTime.value))
    && EndsWhenDue(s, readBack)
    && StopsAreDue(s.history, readBack)
  }

  lemma Appended(h: seq<Happening>, x: Happening, readBack: int -> int)
    ensures Mails(h + [x]) == Mails(h) + if x.Reminded? then 1 else 0
    ensures Causes(h + [x]) == Causes(h) + if x.Started? || x.Renewed? || x.FlagLost? then 1 else 0
    ensures Adoptions(h + [x])
         == if x.Started? || x.Renewed? then 0 else Adoptions(h) + if x.Adopted? then 1 else 0
    ensures AllInTime(h + [x]) <==> AllInTime(h) && InTime(x)
    ensures Due(h + [x])
         == if x.Started? || x.Renewed? then Some(x.at + x.minutes * 60_000_000_000) else Due(h)
    ensures StopsAreDue(h, readBack)
            && (x.StopSent? ==> Due(h).Some? && x.readEnd == readBack(Due(h).value) && x.now > x.readEnd)
            ==> StopsAreDue(h + [x], readBack)
  {
    assert (h + [x])[..|h|] == h;
    assert x in h + [x];
    assert forall y | y in h :: y in h + [x];
    if StopsAreDue(h, readBack) {
      forall k | 0 <= k < |h| ensures StopIsDue(h + [x], k, readBack) {
        assert StopIsDue(h, k, readBack) && (h + [x])[..k] == h[..k];
      }
    }
  }

  lemma RemindKeepsGood(s: Slice, left: int, c: Calls, readBack: int -> int)
    requires Good(s, readBack) && s.event.Some? && left > 0
    ensures Good(Remind(s, left, c), readBack)
  {
    Appended(s.history, Reminded(left), readBack);
    Appended(s.history + [Reminded(left)], FlagLost, readBack);
  }

  lemma ExpireKeepsGood(s: Slice, now: int, c: Calls, readBack: int -> int)
    requires Good(s, readBack) && s.event.Some? && now > s.event.value.endTime
    ensures Good(Expire(s, now, c, readBack), readBack)
  {
    Appended(s.history, Adopted, readBack);
    Appended(s.history, StopSent(now, s.event.value.endTime), readBack);
  }

  lemma BeginKeepsGood(s: Slice, token: Token, now: int, duration: Option<int>, found: bool, stored: bool,
                       readBack: int -> int)
    requires Good(s, readBack)
    ensures Good(Begin(s, token, now, duration, found, stored), readBack)
  {
    if duration.Some? {
      Appended(s.history, Started(now, duration.value), readBack);
    }
  }

  lemma RenewKeepsGood(s: Slice, now: int, duration: Option<int>, stored: bool, readBack: int -> int)
    requires Good(s, readBack)
    ensures Good(Renew(s, now, duration, stored), readBack)
  {
    if duration.Some? {
      Appended(s.history, Renewed(now, duration.value), readBack);
    }
  }

  /** An event or a row that goes, or a row without an event, harms nothing. */
  lemma LosingKeepsGood(s: Slice, s': Slice, readBack: int -> int)
    requires Good(s, readBack) && s'.history == s.history
    requires s'.event.None? || (s'.event == s.event && (s'.row.None? || s'.row == s.row))
    ensures Good(s', readBack)
  {
    hide Mails, Causes, AllInTime, Adoptions, Due, StopsAreDue;
  }

  lemma AdvanceKeepsGood(s: Slice, step: Step, readBack: int -> int)
    requires Good(s, readBack)
    ensures Good(Advance(s, step, readBack), readBack)
  {
    hide Good, Remind, Expire, Begin, Renew;
    match step
    case Tick(now, calls) =>
      if s.event.Some? {
        var left := s.event.value.endTime - now;
        if left > 0 {
          RemindKeepsGood(s, left, calls, readBack);
        } else if left < 0 {
          ExpireKeepsGood(s, now, calls, readBack);
        }
      }
    case Start(token, now, duration, found, stored) => BeginKeepsGood(s, token, now, duration, found, stored, readBack);
    case Renewal(now, duration, stored) => RenewKeepsGood(s, now, duration, stored, readBack);
    case _ => LosingKeepsGood(s, Advance(s, step, readBack), readBack);
  }

  lemma {:induction false} RunKeepsGood(s: Slice, steps: seq<Step>, readBack: int -> int)
    requires Good(s, readBack)
    ensures Good(Run(s, steps, readBack), readBack)
    decreases |steps|
  {
    if steps != [] {
      AdvanceKeepsGood(s, steps[0], readBack);
      RunKeepsGood(Advance(s, steps[0], readBack), steps[1..], readBack);
    }
  }

  /** Over any run from an instance nobody has heard of, under any failures and any read-back. */
  lemma EveryRunIsGood(steps: seq<Step>, readBack: int -> int)
    ensures var s := Run(Slice(None, None, []), steps, readBack);
            && Agrees(s, readBack)
            && Mails(s.history) <= Causes(s.history)
            && AllInTime(s.history)
            && Adoptions(s.history) <= 1
            && EndsWhenDue(s, readBack) && StopsAreDue(s.history, readBack)
  {
    RunKeepsGood(Slice(None, None, []), steps, readBack);
  }

  predicate SetsEnd(x: Happening) { x.Started? || x.Renewed? }

  lemma {:induction false} DueAfter(h: seq<Happening>, j: nat)
    requires j < |h| && SetsEnd(h[j]) && forall m | j < m < |h| :: !SetsEnd(h[m])
    ensures Due(h) == Some(h[j].at + h[j].minutes * 60_000_000_000)
  {
    if j < |h| - 1 {
      DueAfter(h[..|h| - 1], j);
    }
  }

  /** Over any run, if the database gives times back as they were stored: no stop is sent at or before the
      last start or renewal plus its minutes, and none is sent without one. */
  lemma NoStopBeforeItIsDue(steps: seq<Step>, readBack: int -> int, k: nat)
    requires forall time :: readBack(time) == time
    ensures var h := Run(Slice(None, None, []), steps, readBack).history;
            k < |h| && h[k].StopSent? ==>
              && (exists j :: 0 <= j < k && SetsEnd(h[j]))
              && forall j | 0 <= j < k && SetsEnd(h[j]) && (forall m | j < m < k :: !SetsEnd(h[m])) ::
                   h[k].now > h[j].at + h[j].minutes * 60_000_000_000
  {
    var h := Run(Slice(None, None, []), steps, readBack).history;
    EveryRunIsGood(steps, readBack);
    if k < |h| && h[k].StopSent? {
      assert StopIsDue(h, k, readBack);
      var j := SetsDue(h[..k]);
      assert h[j] == h[..k][j];
      forall j | 0 <= j < k && SetsEnd(h[j]) && (forall m | j < m < k :: !SetsEnd(h[m]))
        ensures h[k].now > h[j].at + h[j].minutes * 60_000_000_000
      {
        DueAfter(h[..k], j);
      }
    }
  }

  lemma {:induction false} SetsDue(h: seq<Happening>) returns (j: nat)
    requires Due(h).Some?
    ensures j < |h| && SetsEnd(h[j])
  {
    if SetsEnd(h[|h| - 1]) {
      j := |h| - 1;
    } else {
      j := SetsDue(h[..|h| - 1]);
    }
  }

  // ----- One reminder, unless its flag is lost

  /** A tick within the half hour before `end` whose mail goes out. */
  predicate RemindingTick(step: Step, end: int) {
    && step.Tick? && 0 < end - step.now <= 1_800_000_000_000
    && step.calls.mailFound && step.calls.mailSent
  }

  predicate NotPast(step: Step, end: int) { step.Tick? && step.now <= end }

  /** A tick that loses no reminder flag. */
  predicate KeepsFlag(step: Step) { step.Tick? && (step.calls.mailSent ==> step.calls.flagWritten) }

  lemma {:induction false} RemindedStaysReminded(s: Slice, steps: seq<Step>, readBack: int -> int)
    requires (s.event.Some? && s.row.Some? ==> s.row.value.reminderSent) && forall step | step in steps :: IsTick(step)
    ensures Mails(Run(s, steps, readBack).history) == Mails(s.history)
    decreases |steps|
  {
    if steps != [] {
      var t := Advance(s, steps[0], readBack);
      assert IsTick(steps[0]);
      if t.history != s.history {
        Appended(s.history, t.history[|s.history|], readBack);
      }
      RemindedStaysReminded(t, steps[1..], readBack);
    }
  }

  /** Left alone, a session nobody was reminded of is reminded of exactly once if some tick comes within
      half an hour before its end and can mail, whatever the ticks around it do, unless a flag is lost. */
  lemma {:induction false} RemindedOnce(s: Slice, end: int, steps: seq<Step>, k: nat, readBack: int -> int)
    requires s.event.Some? && s.event.value.endTime == end && s.row.Some? && !s.row.value.reminderSent
    requires k < |steps| && RemindingTick(steps[k], end)
    requires (forall step | step in steps :: KeepsFlag(step)) && forall j | 0 <= j < k :: NotPast(steps[j], end)
    ensures Mails(Run(s, steps, readBack).history) == Mails(s.history) + 1
    decreases |steps|
  {
    var t := Advance(s, steps[0], readBack);
    assert KeepsFlag(steps[0]) && (k > 0 ==> NotPast(steps[0], end));
    if t.history == s.history + [Reminded(end - steps[0].now)] {
      Appended(s.history, Reminded(end - steps[0].now), readBack);
      forall step | step in steps[1..] ensures IsTick(step) {
        assert KeepsFlag(step);
      }
      RemindedStaysReminded(t, steps[1..], readBack);
    } else {
      assert forall j | 0 <= j < k - 1 :: steps[1..][j] == steps[j + 1];
      RemindedOnce(t, end, steps[1..], k - 1, readBack);
    }
  }

  /** A renewal makes the reminder due again, for the new end. */
  lemma RenewalRemindsAgain(s: Slice, now: int, minutes: int, steps: seq<Step>, k: nat, readBack: int -> int)
    requires s.event.Some? && s.row.Some?
    requires k < |steps| && RemindingTick(steps[k], now + minutes * 60_000_000_000)
    requires forall step | step in steps :: KeepsFlag(step)
    requires forall j | 0 <= j < k :: NotPast(steps[j], now + minutes * 60_000_000_000)
    ensures Mails(Run(Renew(s, now, Some(minutes), true), steps, readBack).history) == Mails(s.history) + 1
  {
    Appended(s.history, Renewed(now, minutes), readBack);
    RemindedOnce(Renew(s, now, Some(minutes), true), now + minutes * 60_000_000_000, steps, k, readBack);
  }

  // ----- An expired session ends

  predicate Succeeds(c: Calls) { c.endRead && c.stopAccepted && c.cleared }

  predicate IsTick(step: Step) { step.Tick? }

  /** The session is over: row and event were cleared together. */
  predicate Over(s: Slice) { s.event.None? && s.row == Some(NO_SESSION) }

  /** The session with end time `written` is over or still scheduled under one of its two end times. */
  predicate ScheduledOrOver(s: Slice, written: int, readBack: int -> int) {
    || Over(s)
    || (s.event.Some? && s.row.Some? && s.row.value.endTime == Some(written)
        && s.event.value.endTime in {written, readBack(written)})
  }

  /** Past the time written, and the stored time can be read. */
  predicate ReadingTick(step: Step, written: int) { step.Tick? && step.now > written && step.calls.endRead }

  /** Past the stored time, and every call succeeds. */
  predicate EndingTick(step: Step, written: int, readBack: int -> int) {
    step.Tick? && step.now > readBack(written) && Succeeds(step.calls)
  }

  /** From entry `n` of the history on, a stop was sent for this end time. */
  predicate StopSentSince(h: seq<Happening>, n: nat, readEnd: int) {
    exists j :: n <= j < |h| && h[j].StopSent? && h[j].readEnd == readEnd
  }

  /** What one tick makes of a session that is scheduled or over. */
  lemma TickOfScheduled(s: Slice, written: int, step: Step, readBack: int -> int)
    requires ScheduledOrOver(s, written, readBack) && IsTick(step)
    ensures var t := Advance(s, step, readBack);
            && ScheduledOrOver(t, written, readBack) && |t.history| >= |s.history|
            && (s.event.Some? && Over(t) ==> StopSentSince(t.history, |s.history|, readBack(written)))
            && (ReadingTick(step, written) ==> Over(t) || t.event.value.endTime == readBack(written))
            && (s.event.Some? && s.event.value.endTime == readBack(written) ==>
                  (t.event.Some? ==> t.event.value.endTime == readBack(written))
                  && (EndingTick(step, written, readBack) ==> Over(t)))
  {
    var t := Advance(s, step, readBack);
    if s.event.Some? && Over(t) {
      assert t.history[|s.history|] == StopSent(step.now, readBack(written));
    }
  }

  /** A session that is scheduled under its stored end time is over after the first tick past that time
      whose calls succeed, whatever the ticks around it did: a stop was sent for that time. */
  lemma {:induction false} EndingTickEnds(s: Slice, written: int, steps: seq<Step>, l: nat, readBack: int -> int)
    requires ScheduledOrOver(s, written, readBack) && (s.event.Some? ==> s.event.value.endTime == readBack(written))
    requires forall step | step in steps :: IsTick(step)
    requires l < |steps| && EndingTick(steps[l], written, readBack)
    ensures Over(Run(s, steps, readBack))
    ensures s.event.Some? ==> StopSentSince(Run(s, steps, readBack).history, |s.history|, readBack(written))
    decreases |steps|
  {
    var t := Advance(s, steps[0], readBack);
    assert IsTick(steps[0]);
    TickOfScheduled(s, written, steps[0], readBack);
    if Over(t) {
      OverStays(t, steps[1..], readBack);
    } else {
      EndingTickEnds(t, written, steps[1..], l - 1, readBack);
    }
  }

  /** Left alone but for the monitor, a session under any of its two end times needs one tick past the
      time written that can read the stored one, which may be adopted then, and a later tick past the
      stored time whose calls succeed. */
  lemma {:induction false} LateTicksEnd(s: Slice, written: int, steps: seq<Step>, k: nat, l: nat, readBack: int -> int)
    requires ScheduledOrOver(s, written, readBack) && (forall step | step in steps :: IsTick(step))
    requires k < l < |steps| && ReadingTick(steps[k], written) && EndingTick(steps[l], written, readBack)
    ensures Over(Run(s, steps, readBack))
    ensures s.event.Some? ==> StopSentSince(Run(s, steps, readBack).history, |s.history|, readBack(written))
    decreases |steps|
  {
    var t := Advance(s, steps[0], readBack);
    assert IsTick(steps[0]);
    TickOfScheduled(s, written, steps[0], readBack);
    if Over(t) {
      OverStays(t, steps[1..], readBack);
    } else if k == 0 {
      EndingTickEnds(t, written, steps[1..], l - 1, readBack);
    } else {
      LateTicksEnd(t, written, steps[1..], k - 1, l - 1, readBack);
    }
  }

  /** Once a stop request dropped the event, no tick does anything for the instance any more, whether
      its row was cleared or not and whether the VM stopped or not. */
  lemma {:induction false} DroppedStaysDropped(s: Slice, cleared: bool, steps: seq<Step>, readBack: int -> int)
    requires forall step | step in steps :: IsTick(step)
    ensures Run(End(s, cleared), steps, readBack) == End(s, cleared)
    decreases |steps|
  {
    if steps != [] {
      assert IsTick(steps[0]);
      DroppedStaysDropped(s, cleared, steps[1..], readBack);
    }
  }

  lemma {:induction false} OverStays(s: Slice, steps: seq<Step>, readBack: int -> int)
    requires Over(s) && forall step | step in steps :: IsTick(step)
    ensures Run(s, steps, readBack) == s
    decreases |steps|
  {
    if steps != [] {
      assert IsTick(steps[0]);
      OverStays(s, steps[1..], readBack);
    }
  }

  // ----- All instances

  function Tokens(s: Slice): set<Token> {
    (if s.event.Some? then {s.event.value.token} else {})
    + (if s.row.Some? && s.row.value.token.Some? then {s.row.value.token.value} else {})
  }

  lemma AdvanceKeepsTokens(s: Slice, step: Step, readBack: int -> int)
    ensures Tokens(Advance(s, step, readBack)) <= Tokens(s) + if step.Start? then {step.token} else {}
  {
  }

  datatype Store = Store(events: map<Id, SessionEvent>, rows: map<Id, Row>, history: map<Id, seq<Happening>>) {
    function At(i: Id): Slice {
      Slice(if i in events then Some(events[i]) else None,
            if i in rows then Some(rows[i]) else None,
            if i in history then history[i] else [])
    }
  }

  ghost predicate TokensDistinct(s: Store) {
    forall i, j | i != j :: Tokens(s.At(i)) !! Tokens(s.At(j))
  }

  ghost predicate AllGood(s: Store, readBack: int -> int) {
    (forall i :: Good(s.At(i), readBack)) && TokensDistinct(s)
  }

  /** The step changes one instance, as it should, and no other. */
  ghost predicate Only(s: Store, s': Store, id: Id, step: Step, readBack: int -> int) {
    && s'.At(id) == Advance(s.At(id), step, readBack)
    && forall i | i != id :: s'.At(i) == s.At(i)
  }

  lemma StepKeepsAllGood(s: Store, s': Store, id: Id, step: Step, readBack: int -> int)
    requires AllGood(s, readBack) && Only(s, s', id, step, readBack)
    requires step.Start? ==> forall i :: step.token !in Tokens(s.At(i))
    ensures AllGood(s', readBack)
  {
    AdvanceKeepsGood(s.At(id), step, readBack);
    AdvanceKeepsTokens(s.At(id), step, readBack);
    forall i, j | i != j ensures Tokens(s'.At(i)) !! Tokens(s'.At(j)) {
      assert Tokens(s.At(i)) !! Tokens(s.At(j));
      DisjointStays(s, s', id, step, readBack, i, j);
    }
  }

  lemma DisjointStays(s: Store, s': Store, id: Id, step: Step, readBack: int -> int, i: Id, j: Id)
    requires Only(s, s', id, step, readBack) && i != j && Tokens(s.At(i)) !! Tokens(s.At(j))
    requires step.Start? ==> step.token !in Tokens(s.At(i)) && step.token !in Tokens(s.At(j))
    ensures Tokens(s'.At(i)) !! Tokens(s'.At(j))
  {
    AdvanceKeepsTokens(s.At(id), step, readBack);
  }

  /** The row found by a mailed token belongs to the one instance whose event may carry it. */
  lemma TokenNamesOneInstance(s: Store, token: Token, found: Id, readBack: int -> int)
    requires AllGood(s, readBack) && found in s.rows && s.rows[found].token == Some(token)
    ensures forall i | i in s.events :: s.events[i].token == token <==> i == found
  {
    forall i | i in s.events ensures s.events[i].token == token <==> i == found {
      assert Good(s.At(i), readBack) && Agrees(s.At(i), readBack);
      assert token in Tokens(s.At(found)) && s.events[i].token in Tokens(s.At(i));
    }
  }

  function Used(events: map<Id, SessionEvent>, rows: map<Id, Row>): set<Token> {
    (set i | i in events :: events[i].token) + (set i | i in rows && rows[i].token.Some? :: rows[i].token.value)
  }

  lemma UnusedIsFresh(s: Store, token: Token)
    requires token !in Used(s.events, s.rows)
    ensures forall i :: token !in Tokens(s.At(i))
  {
    forall i ensures token !in Tokens(s.At(i)) {
      assert i in s.events ==> s.events[i].token in Used(s.events, s.rows);
      assert i in s.rows && s.rows[i].token.Some? ==> s.rows[i].token.value in Used(s.events, s.rows);
    }
  }

  /** What the mutex serialises. Whether a VM-manager call, a query, a mail or a write succeeds is part
      of the request. */
  datatype Request =
    | OnTick(now: int, calls: Id -> Calls)
    | OnStart(id: Id, accepted: bool, token: Token, now: int, duration: Option<int>, found: bool, stored: bool)
    | OnStop(id: Id, cleared: bool, accepted: bool)
    | OnRenew(id: Id, now: int, duration: Option<int>, stored: bool)
    | OnRow(id: Id, added: bool)

  function StepsFor(r: Request, i: Id): seq<Step> {
    match r
    case OnTick(now, calls) => [Tick(now, calls(i))]
    case OnStart(id, accepted, token, now, duration, found, stored) =>
      if id == i && accepted then [Start(token, now, duration, found, stored)] else []
    case OnStop(id, cleared, _) => if id == i then [Stop(cleared)] else []
    case OnRenew(id, now, duration, stored) => if id == i then [Renewal(now, duration, stored)] else []
    case OnRow(id, added) => if id == i then [if added then AddRow else DeleteRow] else []
  }

  /** What a sequence of requests does to one instance. */
  function StepsOf(requests: seq<Request>, i: Id): seq<Step> {
    if requests == [] then []
    else StepsOf(requests[..|requests| - 1], i) + StepsFor(requests[|requests| - 1], i)
  }

  /** An instance after some requests. */
  function Later(s: Store, requests: seq<Request>, i: Id, readBack: int -> int): Slice {
    Run(s.At(i), StepsOf(requests, i), readBack)
  }

  lemma {:induction false} RunAppend(s: Slice, a: seq<Step>, b: seq<Step>, readBack: int -> int)
    ensures Run(s, a + b, readBack) == Run(Run(s, a, readBack), b, readBack)
    decreases |a|
  {
    if a == [] {
      assert a + b == b;
    } else {
      assert (a + b)[1..] == a[1..] + b && (a + b)[0] == a[0];
      RunAppend(Advance(s, a[0], readBack), a[1..], b, readBack);
    }
  }

  /** Tokens are drawn once and for all. */
  predicate Fresh(requests: seq<Request>, used: set<Token>) {
    && (forall k | 0 <= k < |requests| && requests[k].OnStart? :: requests[k].token !in used)
    && (forall j, k | 0 <= j < k < |requests| && requests[j].OnStart? && requests[k].OnStart? ::
          requests[j].token != requests[k].token)
  }

  function TokenOf(r: Request): set<Token> { if r.OnStart? then {r.token} else {} }

  lemma UsedGrows(s: Store, s': Store, r: Request, readBack: int -> int)
    requires forall i :: s'.At(i) == Run(s.At(i), StepsFor(r, i), readBack)
    ensures Used(s'.events, s'.rows) <= Used(s.events, s.rows) + TokenOf(r)
  {
    forall token | token in Used(s'.events, s'.rows) ensures token in Used(s.events, s.rows) + TokenOf(r) {
      var i := HolderOf(s', token);
      TokensGrow(s.At(i), r, i, readBack);
      if token in Tokens(s.At(i)) {
        HeldIsUsed(s, token, i);
      }
    }
  }

  lemma HolderOf(s: Store, token: Token) returns (i: Id)
    requires token in Used(s.events, s.rows)
    ensures token in Tokens(s.At(i))
  {
    if i' :| i' in s.events && s.events[i'].token == token {
      i := i';
    } else {
      i :| i in s.rows && s.rows[i].token == Some(token);
    }
  }

  lemma HeldIsUsed(s: Store, token: Token, i: Id)
    requires token in Tokens(s.At(i))
    ensures token in Used(s.events, s.rows)
  {
    assert i in s.events ==> s.events[i].token in Used(s.events, s.rows);
    assert i in s.rows && s.rows[i].token.Some? ==> s.rows[i].token.value in Used(s.events, s.rows);
  }

  lemma TokensGrow(s: Slice, r: Request, i: Id, readBack: int -> int)
    ensures Tokens(Run(s, StepsFor(r, i), readBack)) <= Tokens(s) + TokenOf(r)
  {
    var steps := StepsFor(r, i);
    if steps != [] {
      assert steps[1..] == [];
      AdvanceKeepsTokens(s, steps[0], readBack);
    }
  }

  // ----- A mailed link is looked up first and used later

  predicate RestartedSince(h: seq<Happening>, n: nat) { exists j :: n <= j < |h| && h[j].Started? }

  lemma AdvanceExtends(s: Slice, step: Step, readBack: int -> int)
    ensures s.history <= Advance(s, step, readBack).history
    ensures RestartedSince(Advance(s, step, readBack).history, |s.history|)
       <==> step.Start? && |Advance(s, step, readBack).history| > |s.history|
  {
    var t := Advance(s, step, readBack);
    if step.Start? && |t.history| > |s.history| {
      assert t.history[|s.history|].Started?;
    }
  }

  lemma {:induction false} RunExtends(s: Slice, steps: seq<Step>, readBack: int -> int)
    ensures s.history <= Run(s, steps, readBack).history
    decreases |steps|
  {
    if steps != [] {
      AdvanceExtends(s, steps[0], readBack);
      RunExtends(Advance(s, steps[0], readBack), steps[1..], readBack);
    }
  }

  predicate NeverDraws(steps: seq<Step>, token: Token) { forall x | x in steps && x.Start? :: x.token != token }

  lemma {:induction false} ForeignStaysForeign(s: Slice, token: Token, steps: seq<Step>, readBack: int -> int)
    requires NeverDraws(steps, token) && (s.event.Some? ==> s.event.value.token != token)
    ensures var t := Run(s, steps, readBack); t.event.Some? ==> t.event.value.token != token
    decreases |steps|
  {
    if steps != [] {
      assert steps[0] in steps;
      ForeignStaysForeign(Advance(s, steps[0], readBack), token, steps[1..], readBack);
    }
  }

  lemma RestartedLater(h: seq<Happening>, mid: seq<Happening>, later: seq<Happening>)
    requires h <= mid <= later
    ensures RestartedSince(later, |h|) <==> RestartedSince(mid, |h|) || RestartedSince(later, |mid|)
  {
    if RestartedSince(mid, |h|) {
      var j :| |h| <= j < |mid| && mid[j].Started?;
      assert later[j].Started?;
    }
    if j :| |h| <= j < |later| && later[j].Started? {
      assert j < |mid| ==> mid[j].Started?;
    }
  }

  /** Whatever happens between the look-up of a token and its use: the event of the instance found
      still carries the token if and only if the instance was not restarted meanwhile. */
  lemma {:induction false} LinkNamesUnlessRestarted(s: Slice, token: Token, steps: seq<Step>, readBack: int -> int)
    requires s.event.Some? ==> s.event.value.token == token
    requires NeverDraws(steps, token)
    ensures var t := Run(s, steps, readBack);
            t.event.Some? ==> (t.event.value.token == token <==> !RestartedSince(t.history, |s.history|))
    decreases |steps|
  {
    if steps != [] {
      var t := Advance(s, steps[0], readBack);
      assert steps[0] in steps;
      AdvanceExtends(s, steps[0], readBack);
      RunExtends(t, steps[1..], readBack);
      RestartedLater(s.history, t.history, Run(t, steps[1..], readBack).history);
      if RestartedSince(t.history, |s.history|) {
        ForeignStaysForeign(t, token, steps[1..], readBack);
      } else {
        LinkNamesUnlessRestarted(t, token, steps[1..], readBack);
      }
    }
  }

  lemma EmptyIsGood(readBack: int -> int)
    ensures Good(Slice(None, Some(NO_SESSION), []), readBack)
  {
  }

  /** A link looked up before a restart and used after it renews the new session. */
  lemma OldLinkCanRenewNewSession(readBack: int -> int)
    ensures exists s, steps, token ::
              && Good(s, readBack) && s.event.Some? && s.event.value.token == token && NeverDraws(steps, token)
              && var t := Run(s, steps, readBack);
              && t.event.Some? && t.event.value.token != token
              && Renew(t, 2 * MINUTE, Some(1), true).event.value.endTime != t.event.value.endTime
  {
    hide Good;
    var empty := Slice(None, Some(NO_SESSION), []);
    var s := Advance(empty, Start("a", 0, Some(1), true, true), readBack);
    EmptyIsGood(readBack);
    BeginKeepsGood(empty, "a", 0, Some(1), true, true, readBack);
    var steps := [Stop(true), Start("b", MINUTE, Some(1), true, true)];
    var stopped := Advance(s, steps[0], readBack);
    assert steps[1..] == [steps[1]] && steps[1..][1..] == [];
    assert Run(s, steps, readBack) == Run(stopped, [steps[1]], readBack) == Advance(stopped, steps[1], readBack);
    assert "a" != "b" && NeverDraws(steps, "a");
  }

  lemma {:induction false} NeverDrawn(requests: seq<Request>, i: Id, used: set<Token>, token: Token)
    requires Fresh(requests, used) && token in used
    ensures NeverDraws(StepsOf(requests, i), token)
  {
    if requests != [] {
      var last := requests[|requests| - 1];
      assert forall k | 0 <= k < |requests| - 1 :: requests[..|requests| - 1][k] == requests[k];
      NeverDrawn(requests[..|requests| - 1], i, used, token);
      assert last.OnStart? ==> last.token != token;
    }
  }

  /** The look-up finds the one instance whose event could carry the token. */
  lemma LookUpIsUnique(s: Store, token: Token, i: Id, j: Id, readBack: int -> int)
    requires AllGood(s, readBack) && i in s.rows && j in s.rows
    requires s.rows[i].token == Some(token) && s.rows[j].token == Some(token)
    ensures i == j
  {
    assert token in Tokens(s.At(i)) && token in Tokens(s.At(j));
  }

  class SessionManager {
    var scheduledEvents: map<Id, SessionEvent>
    var rows: map<Id, Row>
    const readBack: int -> int
    ghost var history: map<Id, seq<Happening>>

    constructor (rows: map<Id, Row>, readBack: int -> int)
      requires forall i, j | i in rows && j in rows && i != j :: rows[i].token.None? || rows[i].token != rows[j].token
      ensures Valid() && Contents() == Store(map[], rows, map[])
    {
      this.scheduledEvents := map[];
      this.rows := rows;
      this.readBack := readBack;
      this.history := map[];
    }

    ghost function Contents(): Store
      reads this
    {
      Store(scheduledEvents, rows, history)
    }

    ghost predicate Valid()
      reads this
    {
      AllGood(Contents(), readBack)
    }

    /** Another part of the web server adds or deletes an instance's row, between two holders of the mutex. */
    method ChangeRow(id: Id, step: Step)
      requires Valid() && (step.AddRow? || step.DeleteRow?)
      modifies this`rows
      ensures Valid() && Only(old(Contents()), Contents(), id, step, readBack)
    {
      ghost var before := Contents();
      if step.DeleteRow? {
        rows := rows - {id};
      } else if id !in rows && id !in scheduledEvents {
        rows := rows[id := NO_SESSION];
      }
      StepKeepsAllGood(before, Contents(), id, step, readBack);
    }

    ghost method Record(id: Id, x: Happening)
      modifies this`history
      ensures history == old(history)[id := old(Contents().At(id).history) + [x]]
    {
      history := history[id := Contents().At(id).history + [x]];
    }

    /** The body of the monitor's loop. */
    method CheckEvent(id: Id, now: int, c: Calls)
      requires id in scheduledEvents
      modifies this
      ensures Only(old(Contents()), Contents(), id, Tick(now, c), readBack)
      ensures scheduledEvents.Keys - {id} == old(scheduledEvents).Keys - {id}
    {
      var event := scheduledEvents[id];
      var timeUntilEnd := event.endTime - now;
      if timeUntilEnd > 0 && timeUntilEnd <= REMINDER_WINDOW {
        if id !in rows || !c.mailFound { return; }
        if !rows[id].reminderSent {
          if !c.mailSent { return; }
          Record(id, Reminded(timeUntilEnd));
          if c.flagWritten {
            rows := rows[id := rows[id].(reminderSent := true)];
          } else {
            Record(id, FlagLost);
          }
        }
      }
      if now > event.endTime {
        if id !in rows || rows[id].endTime.None? || !c.endRead { return; }
        var currentEndTime := readBack(rows[id].endTime.value);
        if currentEndTime == event.endTime {
          Record(id, StopSent(now, currentEndTime));
          if !c.stopAccepted { return; }
          if !c.cleared { return; }
          rows := rows[id := NO_SESSION];
          scheduledEvents := scheduledEvents - {id};
        } else {
          scheduledEvents := scheduledEvents[id := event.(endTime := currentEndTime)];
          Record(id, Adopted);
        }
      }
    }

    /** One tick of the monitor: every event once, in any order. */
    method MonitorSessions(now: int, calls: Id -> Calls)
      requires Valid()
      modifies this
      ensures Valid()
      ensures forall i :: Contents().At(i) == Advance(old(Contents()).At(i), Tick(now, calls(i)), readBack)
    {
      hide AllGood, Remind, Expire;
      var pending := scheduledEvents.Keys;
      while pending != {}
        invariant Valid() && pending <= scheduledEvents.Keys
        invariant forall i ::
                    Contents().At(i) == if i in pending then old(Contents()).At(i)
                                        else Advance(old(Contents()).At(i), Tick(now, calls(i)), readBack)
        decreases |pending|
      {
        var id :| id in pending;
        pending := pending - {id};
        ghost var before := Contents();
        CheckEvent(id, now, calls(id));
        StepKeepsAllGood(before, Contents(), id, Tick(now, calls(id)), readBack);
      }
    }

    method StartSession(id: Id, token: Token, now: int, duration: Option<int>, found: bool,
                        stored: bool) returns (err: bool)
      requires Valid() && forall i :: token !in Tokens(Contents().At(i))
      modifies this
      ensures Valid() && Only(old(Contents()), Contents(), id, Start(token, now, duration, found, stored), readBack)
      ensures err <==> duration.None? || id !in old(rows) || !found || !stored
      ensures err ==> Contents() == old(Contents())
      ensures !err ==> id in scheduledEvents && id in rows
                       && scheduledEvents[id] == SessionEvent(now + duration.value * 60_000_000_000, token)
                       && rows[id] == Row(Some(now), Some(scheduledEvents[id].endTime), false, Some(token))
    {
      if duration.None? { return true; }
      var endTime := now + duration.value * MINUTE;
      if id !in rows || !found { return true; }
      if !stored { return true; }
      rows := rows[id := Row(Some(now), Some(endTime), false, Some(token))];
      scheduledEvents := scheduledEvents[id := SessionEvent(endTime, token)];
      Record(id, Started(now, duration.value));
      StepKeepsAllGood(old(Contents()), Contents(), id, Start(token, now, duration, found, stored), readBack);
      err := false;
    }

    method StopSession(id: Id, cleared: bool) returns (err: bool)
      requires Valid()
      modifies this
      ensures Valid() && Only(old(Contents()), Contents(), id, Stop(cleared), readBack)
      ensures err <==> !cleared
      ensures id !in scheduledEvents && (cleared && id in rows ==> rows[id] == NO_SESSION)
    {
      if id in scheduledEvents {
        scheduledEvents := scheduledEvents - {id};
      }
      if cleared && id in rows {
        rows := rows[id := NO_SESSION];
      }
      StepKeepsAllGood(old(Contents()), Contents(), id, Stop(cleared), readBack);
      err := !cleared;
    }

    method RenewSession(id: Id, now: int, duration: Option<int>, stored: bool) returns (err: bool)
      requires Valid()
      modifies this
      ensures Valid() && Only(old(Contents()), Contents(), id, Renewal(now, duration, stored), readBack)
      ensures err <==> id !in old(scheduledEvents) || duration.None? || !stored
      ensures err ==> Contents() == old(Contents())
      ensures !err ==> id in scheduledEvents
                       && scheduledEvents[id].endTime == now + duration.value * 60_000_000_000
                       && scheduledEvents[id].token == old(scheduledEvents)[id].token
                       && (id in old(rows) <==> id in rows)
                       && (id in rows ==> rows[id] == Row(old(rows)[id].startTime, Some(scheduledEvents[id].endTime),
                                                          false, Some(scheduledEvents[id].token)))
    {
      if id !in scheduledEvents { return true; }
      var event := scheduledEvents[id];
      if duration.None? { return true; }
      var newEndTime := now + duration.value * MINUTE;
      if !stored { return true; }
      if id in rows {
        rows := rows[id := Row(rows[id].startTime, Some(newEndTime), false, Some(event.token))];
      }
      scheduledEvents := scheduledEvents[id := event.(endTime := newEndTime)];
      Record(id, Renewed(now, duration.value));
      StepKeepsAllGood(old(Contents()), Contents(), id, Renewal(now, duration, stored), readBack);
      err := false;
    }

    /** The VM first, then its session; a session that could not start is no error. */
    method StartInstance(id: Id, accepted: bool, token: Token, now: int, duration: Option<int>, found: bool,
                         stored: bool)
      returns (err: bool)
      requires Valid() && token !in Used(scheduledEvents, rows)
      modifies this
      ensures Valid() && (err <==> !accepted)
      ensures err ==> Contents() == old(Contents())
      ensures !err ==> Only(old(Contents()), Contents(), id, Start(token, now, duration, found, stored), readBack)
    {
      if !accepted { return true; }
      UnusedIsFresh(Contents(), token);
      var _ := StartSession(id, token, now, duration, found, stored);
      err := false;
    }

    /** The session first, then the VM: a refused stop leaves the VM without a session. */
    method StopInstance(id: Id, cleared: bool, accepted: bool) returns (err: bool)
      requires Valid()
      modifies this
      ensures Valid() && (err <==> !accepted)
      ensures Only(old(Contents()), Contents(), id, Stop(cleared), readBack)
    {
      var _ := StopSession(id, cleared);
      err := !accepted;
    }

    method ServeOne(r: Request)
      requires Valid() && (r.OnStart? ==> r.token !in Used(scheduledEvents, rows))
      modifies this
      ensures Valid()
      ensures forall i :: Contents().At(i) == Run(old(Contents()).At(i), StepsFor(r, i), readBack)
    {
      match r
      case OnTick(now, calls) => MonitorSessions(now, calls);
      case OnStart(id, accepted, token, now, duration, found, stored) =>
        var _ := StartInstance(id, accepted, token, now, duration, found, stored);
      case OnStop(id, cleared, accepted) => var _ := StopInstance(id, cleared, accepted);
      case OnRenew(id, now, duration, stored) => var _ := RenewSession(id, now, duration, stored);
      case OnRow(id, added) => ChangeRow(id, if added then AddRow else DeleteRow);
    }

    /** Any sequence of requests and ticks, one holder of the mutex after the other. */
    method Serve(requests: seq<Request>)
      requires Valid() && Fresh(requests, Used(scheduledEvents, rows))
      modifies this
      ensures Valid()
      ensures forall i :: Contents().At(i) == Later(old(Contents()), requests, i, readBack)
    {
      for k := 0 to |requests|
        invariant Valid()
        invariant forall j | k <= j < |requests| && requests[j].OnStart? ::
                    requests[j].token !in Used(scheduledEvents, rows)
        invariant forall i :: Contents().At(i) == Later(old(Contents()), requests[..k], i, readBack)
      {
        ghost var before := Contents();
        ServeOne(requests[k]);
        UsedGrows(before, Contents(), requests[k], readBack);
        assert requests[..k + 1][..k] == requests[..k];
        forall i ensures Contents().At(i) == Later(old(Contents()), requests[..k + 1], i, readBack) {
          RunAppend(old(Contents()).At(i), StepsOf(requests[..k], i), StepsFor(requests[k], i), readBack);
        }
      }
      assert requests[..|requests|] == requests;
    }

    /** A mailed link: the token is looked up without the mutex, other holders may come first, then the
        instance found is renewed. */
    method HandleRenewSession(token: Token, read: bool, between: seq<Request>, now: int, duration: Option<int>,
                              stored: bool)
      returns (err: bool)
      requires Valid() && Fresh(between, Used(scheduledEvents, rows))
      modifies this
      ensures Valid()
      // It works if and only if every call does and the instance found still has a session.
      ensures err <==> !(read && stored && duration.Some? && LinkLeads(old(Contents()), token, between, readBack))
      ensures err ==> forall i :: Contents().At(i) == Later(old(Contents()), between, i, readBack)
      ensures !err ==> exists id :: LinkRenews(old(Contents()), Contents(), token, between, id, now, duration, readBack)
    {
      ghost var s := Contents();
      if !read || token == "" {
        Serve(between);
        return true;
      }
      if id :| id in rows && rows[id].token == Some(token) {
        Serve(between);
        ghost var mid := Contents();
        err := RenewSession(id, now, duration, stored);
        LinkOutcome(s, mid, token, between, id, readBack);
        if !err {
          LinkWorked(s, mid, Contents(), token, between, id, now, duration, readBack);
        }
      } else {
        Serve(between);
        err := true;
      }
    }
  }

  /** Some instance has the token in its row at the look-up and an event when the link is used. */
  predicate LinkLeads(s: Store, token: Token, between: seq<Request>, readBack: int -> int) {
    && token != ""
    && exists i :: i in s.rows && s.rows[i].token == Some(token) && Later(s, between, i, readBack).event.Some?
  }

  /** The instance found, and no other, is renewed. At the look-up it is the only one whose event
      could carry the token; when it is renewed its event still does if and only if it was not
      restarted in between. */
  ghost predicate LinkRenews(s: Store, s': Store, token: Token, between: seq<Request>, id: Id,
                             now: int, duration: Option<int>, readBack: int -> int)
  {
    var mid := Later(s, between, id, readBack);
    && id in s.rows && s.rows[id].token == Some(token)
    && (forall i | i in s.events :: s.events[i].token == token <==> i == id)
    && mid.event.Some?
    && (mid.event.value.token == token <==> !RestartedSince(mid.history, |s.At(id).history|))
    && s'.At(id) == Renew(mid, now, duration, true)
    && forall i | i != id :: s'.At(i) == Later(s, between, i, readBack)
  }

  lemma LinkWorked(s: Store, mid: Store, s': Store, token: Token, between: seq<Request>, id: Id,
                   now: int, duration: Option<int>, readBack: int -> int)
    requires AllGood(s, readBack) && Fresh(between, Used(s.events, s.rows)) && token != ""
    requires id in s.rows && s.rows[id].token == Some(token) && id in mid.events
    requires forall i :: mid.At(i) == Later(s, between, i, readBack)
    requires Only(mid, s', id, Renewal(now, duration, true), readBack)
    ensures LinkRenews(s, s', token, between, id, now, duration, readBack)
  {
    LinkOutcome(s, mid, token, between, id, readBack);
    assert mid.At(id) == Later(s, between, id, readBack);
    forall i | i != id ensures s'.At(i) == Later(s, between, i, readBack) {
      assert s'.At(i) == mid.At(i);
    }
  }

  lemma LinkOutcome(s: Store, mid: Store, token: Token, between: seq<Request>, id: Id, readBack: int -> int)
    requires AllGood(s, readBack) && Fresh(between, Used(s.events, s.rows)) && token != ""
    requires id in s.rows && s.rows[id].token == Some(token)
    requires forall i :: mid.At(i) == Later(s, between, i, readBack)
    ensures forall i | i in s.events :: s.events[i].token == token <==> i == id
    ensures LinkLeads(s, token, between, readBack) <==> id in mid.events
    ensures var t := Later(s, between, id, readBack);
            t.event.Some? ==> (t.event.value.token == token <==> !RestartedSince(t.history, |s.At(id).history|))
  {
    TokenNamesOneInstance(s, token, id, readBack);
    assert token in Tokens(s.At(id));
    HeldIsUsed(s, token, id);
    NeverDrawn(between, id, Used(s.events, s.rows), token);
    LinkNamesUnlessRestarted(s.At(id), token, StepsOf(between, id), readBack);
    assert mid.At(id) == Later(s, between, id, readBack);
    if LinkLeads(s, token, between, readBack) {
      var i :| i in s.rows && s.rows[i].token == Some(token) && Later(s, between, i, readBack).event.Some?;
      LookUpIsUnique(s, token, i, id, readBack);
    }
  }
}
