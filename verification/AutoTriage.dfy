/**
  Auto-triage alerting: a per-preset state machine run by one scheduler goroutine.  Each cycle
  walks over the presets in order; every `time.Now` of the source is its own clock reading.
  A zero time.Time is `Never`, from which any amount of time has passed.
*/
module AutoTriage {

  datatype Verdict = Healthy | HostSaturated | AppDegraded | TransitPathDegraded | BranchGatewayDown | MTUBlackhole
                   | ICMPFilteredTCP

  datatype LastVerdict = Empty | Last(v: Verdict)

  datatype Time = Never | At(t: int)

  datatype TargetState = TargetState(lastVerdict: LastVerdict, lastAlert: Time, incidentStart: Time)

  const NEW_STATE := TargetState(Empty, Never, Never)
  const REMINDER: int := 60    // minutes

  datatype Kind = Incident | Reminder | Recovery

  /** A notification; `at` is what LastAlertTime was set to with it. */
  datatype Message = Message(preset: int, kind: Kind, at: int)

  datatype Outcome = Failed | Verdict(v: Verdict)

  /** One preset of one cycle: the readings of the clock in program order, and what the triage finds. */
  datatype Visit = Visit(
    preset: int,
    enabled: bool,         // AutoTriageEnabled, and some source host was found
    interval: int,         // minutes
    sinceAt: int,          // read for timeSinceAlert
    checkAt: int,          // read for the interval check
    outcome: Outcome,
    startAt: int,          // read for IncidentStartTime
    alertAt: int)          // read for LastAlertTime

  predicate Elapsed(since: Time, now: int, atLeast: int) {
    since.Never? || now - since.t >= atLeast
  }

  function StateOf(states: map<int, TargetState>, preset: int): TargetState {
    if preset in states then states[preset] else NEW_STATE
  }

  /** Healthy at the last triage, and that less than an interval ago. */
  predicate Skips(st: TargetState, v: Visit) {
    st.lastVerdict == Last(Healthy) && !Elapsed(st.lastAlert, v.checkAt, v.interval)
  }

  /** The visit gets as far as a triage. */
  predicate Attempts(st: TargetState, v: Visit) {
    v.enabled && !Skips(st, v)
  }

  /** And the triage has a result. */
  predicate Triages(st: TargetState, v: Visit) {
    Attempts(st, v) && v.outcome.Verdict?
  }

  /** The new state of the preset and the message sent, if any. */
  function React(st: TargetState, v: Visit): (TargetState, seq<Message>)
    requires v.outcome.Verdict?
  {
    var next := st.(lastVerdict := Last(v.outcome.v));
    if v.outcome.v != Healthy then
      if st.lastVerdict == Last(Healthy) || st.lastVerdict == Empty then
        (next.(incidentStart := At(v.startAt), lastAlert := At(v.alertAt)), [Message(v.preset, Incident, v.alertAt)])
      else if Elapsed(st.lastAlert, v.sinceAt, REMINDER) then
        (next.(lastAlert := At(v.alertAt)), [Message(v.preset, Reminder, v.alertAt)])
      else
        (next, [])
    else if st.lastVerdict != Empty && st.lastVerdict != Last(Healthy) then
      (next.(incidentStart := Never, lastAlert := At(v.alertAt)), [Message(v.preset, Recovery, v.alertAt)])
    else
      (next.(lastAlert := At(v.alertAt)), [])
  }

  datatype State = State(states: map<int, TargetState>, sent: seq<Message>)

  function Step(s: State, v: Visit): State {
    if !v.enabled then s
    else
      var st := StateOf(s.states, v.preset);
      if !Triages(st, v) then s.(states := s.states[v.preset := st])
      else
        var (next, messages) := React(st, v);
        State(s.states[v.preset := next], s.sent + messages)
  }

  function RunFrom(s: State, visits: seq<Visit>): State {
    if visits == [] then s else Step(RunFrom(s, visits[..|visits| - 1]), visits[|visits| - 1])
  }

  const START := State(map[], [])

  /** Cycles one after the other are one run over all their visits. */
  lemma {:induction false} RunJoins(s: State, first: seq<Visit>, second: seq<Visit>)
    ensures RunFrom(s, first + second) == RunFrom(RunFrom(s, first), second)
  {
    if second == [] {
      assert first + second == first;
    } else {
      var n := |second| - 1;
      assert (first + second)[..|first| + n] == first + second[..n];
      RunJoins(s, first, second[..n]);
    }
  }

  /** The clock readings of a run never go back. */
  ghost predicate Ordered(visits: seq<Visit>) {
    && (forall i | 0 <= i < |visits| ::
        visits[i].sinceAt <= visits[i].checkAt <= visits[i].startAt <= visits[i].alertAt)
    && (forall i, j | 0 <= i < j < |visits| :: visits[i].alertAt <= visits[j].sinceAt)
  }

  // ---------------------------------------------------------------- the language of messages

  /** The messages of one preset, oldest first. */
  function Of(sent: seq<Message>, preset: int): seq<Message> {
    if sent == [] then []
    else
      var m := sent[|sent| - 1];
      Of(sent[..|sent| - 1], preset) + (if m.preset == preset then [m] else [])
  }

  /** Is an incident open after these messages? */
  predicate Open(messages: seq<Message>) {
    messages != [] && messages[|messages| - 1].kind != Recovery
  }

  /**
    A message is an incident exactly when it is the first or follows a recovery, then by at least
    `gap`; a reminder comes at least sixty minutes after the alert before it.
  */
  predicate Fits(messages: seq<Message>, i: nat, gap: int)
    requires i < |messages|
  {
    && (messages[i].kind == Incident <==> i == 0 || messages[i - 1].kind == Recovery)
    && (messages[i].kind == Reminder ==> messages[i].at - messages[i - 1].at >= REMINDER)
    && (messages[i].kind == Incident && i > 0 ==> messages[i].at - messages[i - 1].at >= gap)
  }

  /** (incident reminder* recovery)*, then optionally incident reminder*. */
  ghost predicate InLanguage(messages: seq<Message>, gap: int) {
    forall i: nat | i < |messages| :: Fits(messages, i, gap)
  }

  /** What ties the state of a preset, at `clock`, to the messages sent about it. */
  ghost predicate Tied(st: TargetState, messages: seq<Message>, gap: int, clock: int) {
    && InLanguage(messages, gap)
    && (Open(messages) <==> st.lastVerdict.Last? && st.lastVerdict.v != Healthy)
    && (st.incidentStart.At? <==> Open(messages))
    && (Open(messages) ==> st.lastAlert == At(messages[|messages| - 1].at))
    && (messages != [] && !Open(messages) ==>
          st.lastVerdict.Last? && st.lastAlert.At? && messages[|messages| - 1].at <= st.lastAlert.t)
    && (st.lastAlert.At? ==> st.lastAlert.t <= clock)
  }

  ghost predicate Sound(s: State, preset: int, gap: int, clock: int) {
    Tied(StateOf(s.states, preset), Of(s.sent, preset), gap, clock)
  }

  /** The readings of a visit, at or after `clock`, in order, and an interval of at least `gap`. */
  predicate Timely(v: Visit, gap: int, clock: int) {
    clock <= v.sinceAt <= v.checkAt <= v.startAt <= v.alertAt && v.interval >= gap
  }

  lemma OfAppend(sent: seq<Message>, m: Message, preset: int)
    ensures Of(sent + [m], preset) == if m.preset == preset then Of(sent, preset) + [m] else Of(sent, preset)
  {
    assert (sent + [m])[..|sent|] == sent;
  }

  lemma Extends(messages: seq<Message>, m: Message, gap: int)
    requires InLanguage(messages, gap)
    requires m.kind == Incident <==> !Open(messages)
    requires m.kind == Reminder ==> m.at - messages[|messages| - 1].at >= REMINDER
    requires m.kind == Incident && messages != [] ==> m.at - messages[|messages| - 1].at >= gap
    ensures InLanguage(messages + [m], gap) && (Open(messages + [m]) <==> m.kind != Recovery)
  {
    var all := messages + [m];
    forall i: nat | i < |all| ensures Fits(all, i, gap) {
      if i < |messages| { assert Fits(messages, i, gap); }
    }
  }

  lemma ReactTied(st: TargetState, v: Visit, messages: seq<Message>, gap: int, clock: int)
    requires Tied(st, messages, gap, clock) && Timely(v, gap, clock) && Triages(st, v)
    ensures Tied(React(st, v).0, messages + React(st, v).1, gap, v.alertAt)
    ensures |React(st, v).1| <= 1 && forall m | m in React(st, v).1 :: m.preset == v.preset
  {
    var sent := React(st, v).1;
    if sent == [] {
      assert messages + sent == messages;
    } else {
      assert sent == [sent[0]];
      Extends(messages, sent[0], gap);
    }
  }

  lemma {:induction false} OfConcat(sent: seq<Message>, more: seq<Message>, about: int, preset: int)
    requires forall m | m in more :: m.preset == about
    ensures Of(sent + more, preset) == Of(sent, preset) + (if about == preset then more else [])
    decreases |more|
  {
    if more == [] {
      assert sent + more == sent;
    } else {
      var front, last := more[..|more| - 1], more[|more| - 1];
      OfConcat(sent, front, about, preset);
      OfAppend(sent + front, last, preset);
      assert sent + more == sent + front + [last];
      assert front + [last] == more;
    }
  }

  lemma StepSound(s: State, v: Visit, preset: int, gap: int, clock: int)
    requires Sound(s, preset, gap, clock) && Timely(v, gap, clock)
    ensures Sound(Step(s, v), preset, gap, v.alertAt)
  {
    if Triages(StateOf(s.states, v.preset), v) { TriageSound(s, v, preset, gap, clock); }
  }

  lemma TriageSound(s: State, v: Visit, preset: int, gap: int, clock: int)
    requires Sound(s, preset, gap, clock) && Timely(v, gap, clock) && Triages(StateOf(s.states, v.preset), v)
    ensures var (next, sent) := React(StateOf(s.states, v.preset), v);
      Sound(State(s.states[v.preset := next], s.sent + sent), preset, gap, v.alertAt)
  {
    var st := StateOf(s.states, v.preset);
    var (next, sent) := React(st, v);
    OfConcat(s.sent, sent, v.preset, preset);
    if v.preset == preset {
      ReactTied(st, v, Of(s.sent, preset), gap, clock);
    } else {
      assert Of(s.sent, preset) + [] == Of(s.sent, preset);
    }
  }

  lemma {:induction false} RunSound(visits: seq<Visit>, preset: int, gap: int)
    requires Ordered(visits) && forall v | v in visits :: v.interval >= gap
    ensures Sound(RunFrom(START, visits), preset, gap, if visits == [] then 0 else visits[|visits| - 1].alertAt)
  {
    if visits != [] {
      var n := |visits| - 1;
      RunSound(visits[..n], preset, gap);
      var clock := if n == 0 then visits[0].sinceAt else visits[n - 1].alertAt;
      assert n == 0 ==> visits[..n] == [] && Sound(START, preset, gap, clock);
      StepSound(RunFrom(START, visits[..n]), visits[n], preset, gap, clock);
    }
  }

  /**
    For every run of cycles and every preset: its messages form the alert language, with at
    least sixty minutes between consecutive alerts of one incident and at least the shortest
    interval between a recovery and the next incident; an incident is open - and has a start
    time - exactly while the last verdict is a bad one.
  */
  lemma AlertLanguage(visits: seq<Visit>, preset: int, gap: int)
    requires Ordered(visits) && forall v | v in visits :: v.interval >= gap
    ensures var s := RunFrom(START, visits);
      var st := StateOf(s.states, preset);
      && InLanguage(Of(s.sent, preset), gap)
      && (st.incidentStart.At? <==> Open(Of(s.sent, preset)))
      && (st.incidentStart.At? <==> st.lastVerdict.Last? && st.lastVerdict.v != Healthy)
  {
    RunSound(visits, preset, gap);
  }

  // ---------------------------------------------------------------- what a visit sends

  predicate IsBad(v: Visit) {
    v.outcome.Verdict? && v.outcome.v != Healthy
  }

  /** The preset was found healthy by the last of these triages, less than an interval before `v`. */
  predicate Rests(before: seq<Visit>, v: Visit) {
    before != [] && before[|before| - 1].outcome == Outcome.Verdict(Healthy)
    && v.checkAt - before[|before| - 1].alertAt < v.interval
  }

  /** The visits of a run that triage the preset with a result, told from the visits alone. */
  function Triaged(visits: seq<Visit>, preset: int): (r: seq<Visit>)
    ensures forall v | v in r :: v.outcome.Verdict?
  {
    if visits == [] then []
    else
      var v, before := visits[|visits| - 1], Triaged(visits[..|visits| - 1], preset);
      if v.preset == preset && v.enabled && v.outcome.Verdict? && !Rests(before, v) then before + [v] else before
  }

  predicate BadLast(triaged: seq<Visit>) {
    triaged != [] && IsBad(triaged[|triaged| - 1])
  }

  /** The state of a preset and its messages, told from its triages. */
  ghost predicate Follows(st: TargetState, triaged: seq<Visit>, messages: seq<Message>)
    requires forall v | v in triaged :: v.outcome.Verdict?
  {
    && st.lastVerdict == (if triaged == [] then Empty else Last(triaged[|triaged| - 1].outcome.v))
    && (triaged == [] ==> st == NEW_STATE)
    && (triaged != [] && !BadLast(triaged) ==> st.lastAlert == At(triaged[|triaged| - 1].alertAt))
    && (Open(messages) <==> BadLast(triaged))
    && (BadLast(triaged) ==> st.lastAlert == At(messages[|messages| - 1].at))
  }

  lemma ReactFollows(st: TargetState, v: Visit, triaged: seq<Visit>, messages: seq<Message>)
    requires forall x | x in triaged :: x.outcome.Verdict?
    requires Follows(st, triaged, messages) && v.outcome.Verdict?
    ensures forall x | x in triaged + [v] :: x.outcome.Verdict?
    ensures Follows(React(st, v).0, triaged + [v], messages + React(st, v).1)
  {
    if React(st, v).1 == [] { assert messages + React(st, v).1 == messages; }
  }

  lemma StepFollows(s: State, v: Visit, preset: int, triaged: seq<Visit>)
    requires forall x | x in triaged :: x.outcome.Verdict?
    requires Follows(StateOf(s.states, preset), triaged, Of(s.sent, preset))
    ensures var t := Step(s, v);
      var now := if v.preset == preset && v.enabled && v.outcome.Verdict? && !Rests(triaged, v) then triaged + [v]
                 else triaged;
      (forall x | x in now :: x.outcome.Verdict?) && Follows(StateOf(t.states, preset), now, Of(t.sent, preset))
  {
    var st := StateOf(s.states, v.preset);
    if Triages(st, v) {
      var (next, sent) := React(st, v);
      OfConcat(s.sent, sent, v.preset, preset);
      if v.preset == preset {
        ReactFollows(st, v, triaged, Of(s.sent, preset));
      } else {
        assert Of(s.sent, preset) + [] == Of(s.sent, preset);
      }
    }
  }

  lemma {:induction false} RunFollows(visits: seq<Visit>, preset: int)
    ensures var s := RunFrom(START, visits);
      Follows(StateOf(s.states, preset), Triaged(visits, preset), Of(s.sent, preset))
  {
    if visits != [] {
      var n := |visits| - 1;
      RunFollows(visits[..n], preset);
      StepFollows(RunFrom(START, visits[..n]), visits[n], preset, Triaged(visits[..n], preset));
    }
  }

  /**
    A triage with a bad verdict sends an incident if it is the first or the one before was healthy, and
    then sets the start; after a bad one it sends a reminder exactly if an hour has passed since the
    last message.  A healthy one after a bad one sends the recovery, and after a healthy one nothing.
  */
  predicate Sends(before: seq<Visit>, v: Visit, st: TargetState, next: TargetState, was: seq<Message>,
                  now: seq<Message>)
  {
    if IsBad(v) && !BadLast(before) then
      now == was + [Message(v.preset, Incident, v.alertAt)] && next.incidentStart == At(v.startAt)
    else if IsBad(v) then
      && was != [] && next.incidentStart == st.incidentStart
      && now == was + (if v.sinceAt - was[|was| - 1].at >= 60 then [Message(v.preset, Reminder, v.alertAt)] else [])
    else if BadLast(before) then
      now == was + [Message(v.preset, Recovery, v.alertAt)] && next.incidentStart == Never
    else
      now == was
  }

  lemma ReactSends(st: TargetState, v: Visit, triaged: seq<Visit>, was: seq<Message>)
    requires forall x | x in triaged :: x.outcome.Verdict?
    requires Follows(st, triaged, was) && v.outcome.Verdict?
    ensures Sends(triaged, v, st, React(st, v).0, was, was + React(st, v).1)
    ensures forall m | m in React(st, v).1 :: m.preset == v.preset
  {
    assert was + [] == was;
  }

  lemma StepSends(s: State, v: Visit, preset: int, triaged: seq<Visit>)
    requires forall x | x in triaged :: x.outcome.Verdict?
    requires Follows(StateOf(s.states, preset), triaged, Of(s.sent, preset))
    ensures var (st, next) := (StateOf(s.states, preset), StateOf(Step(s, v).states, preset));
      var (was, now) := (Of(s.sent, preset), Of(Step(s, v).sent, preset));
      if v.preset == preset && v.enabled && v.outcome.Verdict? && !Rests(triaged, v)
      then Sends(triaged, v, st, next, was, now)
      else now == was && next == st
  {
    var st, was := StateOf(s.states, v.preset), Of(s.sent, preset);
    if Triages(st, v) {
      OfConcat(s.sent, React(st, v).1, v.preset, preset);
      if v.preset == preset { ReactSends(st, v, triaged, was); } else { assert was + [] == was; }
    }
  }

  /**
    What one more visit does to a preset, after any run: the last verdict is that of its last triage,
    and messages are sent by a triage alone, as `Sends` says.
  */
  lemma VisitSends(visits: seq<Visit>, v: Visit, preset: int)
    ensures var (s, t) := (RunFrom(START, visits), RunFrom(START, visits + [v]));
      var (before, after) := (Triaged(visits, preset), Triaged(visits + [v], preset));
      var (was, now) := (Of(s.sent, preset), Of(t.sent, preset));
      var (st, next) := (StateOf(s.states, preset), StateOf(t.states, preset));
      && next.lastVerdict == (if after == [] then Empty else Last(after[|after| - 1].outcome.v))
      && (after == before ==> now == was && next == st)
      && (after != before ==> after == before + [v] && v.preset == preset && Sends(before, v, st, next, was, now))
  {
    RunFollows(visits, preset);
    RunFollows(visits + [v], preset);
    assert (visits + [v])[..|visits|] == visits;
    StepSends(RunFrom(START, visits), v, preset, Triaged(visits, preset));
    assert |Triaged(visits, preset) + [v]| > |Triaged(visits, preset)|;
  }

  // ---------------------------------------------------------------- triage frequency

  /** `i` is a triage of the preset and `j` an attempt at one, with no triage of its own in between. */
  ghost predicate Consecutive(visits: seq<Visit>, i: nat, j: nat, preset: int) {
    && i < j < |visits| && visits[i].preset == visits[j].preset == preset
    && Triages(StateOf(RunFrom(START, visits[..i]).states, preset), visits[i])
    && Attempts(StateOf(RunFrom(START, visits[..j]).states, preset), visits[j])
    && forall k | i < k < j && visits[k].preset == preset ::
         !Triages(StateOf(RunFrom(START, visits[..k]).states, preset), visits[k])
  }

  lemma {:induction false} StateBetween(visits: seq<Visit>, i: nat, k: nat, preset: int)
    requires i < k <= |visits| && visits[i].preset == preset
    requires Triages(StateOf(RunFrom(START, visits[..i]).states, preset), visits[i])
    requires forall n | i < n < k && visits[n].preset == preset ::
      !Triages(StateOf(RunFrom(START, visits[..n]).states, preset), visits[n])
    ensures StateOf(RunFrom(START, visits[..k]).states, preset)
         == React(StateOf(RunFrom(START, visits[..i]).states, preset), visits[i]).0
    decreases k
  {
    assert visits[..k][..k - 1] == visits[..k - 1];
    if k - 1 > i { StateBetween(visits, i, k - 1, preset); }
  }

  /** A preset found healthy is not tried again, with or without a result, before the interval has passed. */
  lemma HealthyPresetsRest(visits: seq<Visit>, i: nat, j: nat, preset: int)
    requires Consecutive(visits, i, j, preset) && visits[i].outcome == Outcome.Verdict(Healthy)
    ensures visits[j].checkAt - visits[i].alertAt >= visits[j].interval
  {
    StateBetween(visits, i, j, preset);
  }

  // ---------------------------------------------------------------- the code

  class Service {
    var targetStates: map<int, TargetState>
    var sent: seq<Message>

    /** The loop over the presets of one cycle. */
    method RunAutoTriageCycle(visits: seq<Visit>)
      modifies this
      ensures State(targetStates, sent) == RunFrom(old(State(targetStates, sent)), visits)
    {
      var k := 0;
      while k < |visits|
        invariant 0 <= k <= |visits|
        invariant State(targetStates, sent) == RunFrom(old(State(targetStates, sent)), visits[..k])
      {
        var v := visits[k];
        assert visits[..k + 1][..k] == visits[..k];
        k := k + 1;
        if !v.enabled { continue; }
        var state := if v.preset in targetStates then targetStates[v.preset] else NEW_STATE;
        targetStates := targetStates[v.preset := state];
        var dueReminder := state.lastAlert.Never? || v.sinceAt - state.lastAlert.t >= REMINDER;
        if state.lastVerdict.Last? && state.lastVerdict.v == Healthy
           && state.lastAlert.At? && v.checkAt - state.lastAlert.t < v.interval {
          continue;
        }
        if v.outcome.Failed? { continue; }
        var prev := state.lastVerdict;
        state := state.(lastVerdict := Last(v.outcome.v));
        if v.outcome.v != Healthy {
          if prev.Empty? || prev.v == Healthy {
            state := state.(incidentStart := At(v.startAt), lastAlert := At(v.alertAt));
            sent := sent + [Message(v.preset, Incident, v.alertAt)];
          } else if dueReminder {
            state := state.(lastAlert := At(v.alertAt));
            sent := sent + [Message(v.preset, Reminder, v.alertAt)];
          }
        } else {
          if prev.Last? && prev.v != Healthy {
            sent := sent + [Message(v.preset, Recovery, v.alertAt)];
            state := state.(incidentStart := Never);
          }
          state := state.(lastAlert := At(v.alertAt));
        }
        targetStates := targetStates[v.preset := state];
      }
      assert visits[..k] == visits;
    }
  }
}
