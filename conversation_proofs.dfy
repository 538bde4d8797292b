/**
 * What one inbound message does to the stores, step by step, and what every
 * sequence of messages keeps: the order of the steps, the sessions the
 * survey can reach and the records it inserts.
 */
module ConversationProofs {
  import opened Wrappers
  import opened JsText
  import opened Conversation
  import Phone

  /** The gateway messages that deliver `replies` to `p`, in order. */
  function Deliveries(p: PhoneNumber, replies: seq<Reply>): seq<Outgoing> {
    if replies == [] then [] else [Outgoing(Phone.FormattedPhone(p), replies[0])] + Deliveries(p, replies[1..])
  }

  /** The log rows of those responses. */
  function Responses(p: PhoneNumber, replies: seq<Reply>): seq<LogEntry> {
    if replies == [] then [] else [BotResponse(p, replies[0])] + Responses(p, replies[1..])
  }

  /** `p` was sent exactly `replies`, and the inbound message `m` was logged
      after them under `step`. */
  ghost predicate Answered(st: Store, r: Store, p: PhoneNumber, m: string, step: Step, replies: seq<Reply>) {
    && r.outbox == st.outbox + Deliveries(p, replies)
    && r.log == st.log + Responses(p, replies) + [UserMessage(p, m, step)]
  }

  /** The session `p` has and the message is not a restart command: the
      stored step is dispatched. */
  ghost predicate Continues(st: Store, p: PhoneNumber, m: string) {
    p in st.sessions && !IsRestartCommand(m)
  }

  /** A session that continues is dispatched on its stored step. */
  lemma Dispatched(st: Store, p: PhoneNumber, m: string)
    requires Continues(st, p, m)
    ensures Handle(st, p, m) == Logged(Dispatch(st, p, m, st.sessions[p].step), p, m, st.sessions[p].step)
  {
  }

  /** One reply sent after changes that leave the outbox and log alone. */
  lemma AnsweredOnce(st: Store, mid: Store, p: PhoneNumber, m: string, step: Step, x: Reply)
    requires mid.outbox == st.outbox && mid.log == st.log
    ensures Answered(st, Logged(Sent(mid, p, x), p, m, step), p, m, step, [x])
  {
    assert [x][1..] == [];
  }

  /** One patch of the row, then one reply. */
  lemma Patched(st: Store, p: PhoneNumber, m: string, step: Step, patch: Patch, x: Reply)
    requires p in st.sessions
    ensures var r := Logged(Sent(Updated(st, p, patch), p, x), p, m, step);
            && r.sessions == st.sessions[p := Applied(st.sessions[p], patch)]
            && r.records == st.records
            && Answered(st, r, p, m, step, [x])
  {
    AnsweredOnce(st, Updated(st, p, patch), p, m, step, x);
  }

  /** Only a reply: the row is left as it was. */
  lemma Unpatched(st: Store, p: PhoneNumber, m: string, step: Step, x: Reply)
    ensures var r := Logged(Sent(st, p, x), p, m, step);
            && r.sessions == st.sessions
            && r.records == st.records
            && Answered(st, r, p, m, step, [x])
  {
    AnsweredOnce(st, st, p, m, step, x);
  }

  /** `handleStartStep` on a store that has the row: the welcome text, then
      the step set to `name`. */
  lemma Welcomed(st: Store, p: PhoneNumber, m: string, step: Step)
    requires p in st.sessions
    ensures var r := Logged(StartStep(st, p), p, m, step);
            && r.sessions == st.sessions[p := st.sessions[p].(step := Name)]
            && r.records == st.records
            && Answered(st, r, p, m, step, [Welcome])
  {
    AnsweredOnce(st, st, p, m, step, Welcome);
  }

  /** `startNewSession` and then `handleStartStep`: a fresh row and the
      welcome text. */
  lemma StartedOver(st: Store, p: PhoneNumber, m: string, step: Step)
    ensures var r := Logged(StartStep(Upserted(st, p), p), p, m, step);
            && r.sessions == st.sessions[p := NewSession]
            && r.records == st.records
            && Answered(st, r, p, m, step, [Welcome])
  {
    var reset := Upserted(st, p);
    Welcomed(reset, p, m, step);
    assert reset.sessions[p := reset.sessions[p].(step := Name)] == st.sessions[p := NewSession];
  }

  /** The "did not vote" patch and the final report: one record, one reply. */
  lemma NotVotedCompletion(st: Store, p: PhoneNumber, m: string)
    requires p in st.sessions
    ensures var s := NotVoted(st.sessions[p]);
            var r := Logged(FinalReport(Updated(st, p, VotedNo), p), p, m, Voted);
            && r.sessions == st.sessions[p := s]
            && r.records == st.records + [RecordOf(p, s)]
            && Answered(st, r, p, m, Voted, [FinalSummary(RecordOf(p, s))])
  {
    var s := NotVoted(st.sessions[p]);
    var mid := Updated(st, p, VotedNo);
    assert mid.sessions == st.sessions[p := s];
    var rec := RecordOf(p, s);
    var withRecord := mid.(records := mid.records + [rec]);
    assert FinalReport(mid, p) == Updated(Sent(withRecord, p, FinalSummary(rec)), p, StepTo(Completed));
    CompletedApplied(s);
    AnsweredOnce(st, withRecord, p, m, Voted, FinalSummary(rec));
  }

  /** The session a "did not vote" answer leaves: the `VotedNo` update
      object, spelled out so that proofs need not unfold `Applied`. */
  function NotVoted(s: Session): (t: Session)
    ensures t == s.(hasVoted := Some(false), votersCount := Some(0), userReport := Some(DidNotVote), step := Completed)
  {
    Applied(s, VotedNo)
  }

  /** Storing a report and completing: one record, two replies. */
  lemma ReportCompletion(st: Store, p: PhoneNumber, m: string, report: string)
    requires p in st.sessions
    ensures var done := st.sessions[p].(userReport := Some(report), step := Completed);
            var r := Logged(FinalReport(Sent(Updated(st, p, ReportGiven(report)), p, ReportSaved(report)), p), p, m, Report);
            && r.sessions == st.sessions[p := done]
            && r.records == st.records + [RecordOf(p, done)]
            && Answered(st, r, p, m, Report, [ReportSaved(report), FinalSummary(RecordOf(p, done))])
  {
    var done := st.sessions[p].(userReport := Some(report), step := Completed);
    var mid := Sent(Updated(st, p, ReportGiven(report)), p, ReportSaved(report));
    ReportApplied(st.sessions[p], report);
    assert mid.sessions[p] == done;
    var rec := RecordOf(p, done);
    var withRecord := mid.(records := mid.records + [rec]);
    assert FinalReport(mid, p) == Updated(Sent(withRecord, p, FinalSummary(rec)), p, StepTo(Completed));
    CompletedApplied(done);
    AnsweredTwice(st, withRecord, p, m, Report, ReportSaved(report), FinalSummary(rec));
  }

  lemma CountApplied(s: Session, c: int)
    ensures Applied(s, CountGiven(c)) == s.(votersCount := Some(c), step := Report)
  {
  }

  lemma ReportApplied(s: Session, report: string)
    ensures Applied(s, ReportGiven(report)) == s.(userReport := Some(report), step := Completed)
  {
  }

  lemma CompletedApplied(s: Session)
    requires s.step == Completed
    ensures Applied(s, StepTo(Completed)) == s
  {
  }

  /** Two replies, the first sent before `mid` was reached. */
  lemma AnsweredTwice(st: Store, mid: Store, p: PhoneNumber, m: string, step: Step, x: Reply, y: Reply)
    requires mid.outbox == st.outbox + [Outgoing(Phone.FormattedPhone(p), x)]
    requires mid.log == st.log + [BotResponse(p, x)]
    ensures Answered(st, Logged(Sent(mid, p, y), p, m, step), p, m, step, [x, y])
  {
    var to := Phone.FormattedPhone(p);
    assert [x, y][1..] == [y];
    assert [y][1..] == [];
    assert Deliveries(p, [y]) == [Outgoing(to, y)];
    assert Deliveries(p, [x, y]) == [Outgoing(to, x), Outgoing(to, y)];
    assert Responses(p, [y]) == [BotResponse(p, y)];
    assert Responses(p, [x, y]) == [BotResponse(p, x), BotResponse(p, y)];
  }

  // What each step does once it is dispatched. These lemmas leave out the
  // restart test, which is costly to keep in view, and the rules below
  // combine them with `Dispatched`. The step is a parameter rather than a
  // literal constructor, which keeps the solver from unfolding every branch
  // of `Dispatch`.

  lemma StartEffect(st: Store, p: PhoneNumber, m: string, step: Step)
    requires step == Start
    requires p in st.sessions
    ensures var r := Logged(Dispatch(st, p, m, step), p, m, Start);
            && r.sessions == st.sessions[p := st.sessions[p].(step := Name)]
            && r.records == st.records
            && Answered(st, r, p, m, Start, [Welcome])
  {
    assert Dispatch(st, p, m, step) == StartStep(st, p);
    Welcomed(st, p, m, Start);
  }

  lemma NameEffect(st: Store, p: PhoneNumber, m: string, step: Step)
    requires step == Name
    requires p in st.sessions
    ensures var r := Logged(Dispatch(st, p, m, step), p, m, Name);
            var name := Trim(m);
            && r.records == st.records
            && (Utf16Length(name) >= MinNameLength ==>
                  && r.sessions == st.sessions[p := st.sessions[p].(fullName := Some(name), step := Area)]
                  && Answered(st, r, p, m, Name, [NameSaved(name)]))
            && (Utf16Length(name) < MinNameLength ==>
                  r.sessions == st.sessions && Answered(st, r, p, m, Name, [AskFullName]))
  {
    var name := Trim(m);
    if Utf16Length(name) >= MinNameLength {
      assert Dispatch(st, p, m, step) == Sent(Updated(st, p, NameGiven(name)), p, NameSaved(name));
      Patched(st, p, m, Name, NameGiven(name), NameSaved(name));
    } else {
      assert Dispatch(st, p, m, step) == Sent(st, p, AskFullName);
      Unpatched(st, p, m, Name, AskFullName);
    }
  }

  lemma AreaEffect(st: Store, p: PhoneNumber, m: string, step: Step)
    requires step == Area
    requires p in st.sessions
    ensures var r := Logged(Dispatch(st, p, m, step), p, m, Area);
            var area := Trim(m);
            && r.records == st.records
            && (Utf16Length(area) >= MinAreaLength ==>
                  && r.sessions == st.sessions[p := st.sessions[p].(areaName := Some(area), step := Center)]
                  && Answered(st, r, p, m, Area, [AreaSaved(area)]))
            && (Utf16Length(area) < MinAreaLength ==>
                  r.sessions == st.sessions && Answered(st, r, p, m, Area, [AskArea]))
  {
    var area := Trim(m);
    if Utf16Length(area) >= MinAreaLength {
      assert Dispatch(st, p, m, step) == Sent(Updated(st, p, AreaGiven(area)), p, AreaSaved(area));
      Patched(st, p, m, Area, AreaGiven(area), AreaSaved(area));
    } else {
      assert Dispatch(st, p, m, step) == Sent(st, p, AskArea);
      Unpatched(st, p, m, Area, AskArea);
    }
  }

  lemma CenterEffect(st: Store, p: PhoneNumber, m: string, step: Step)
    requires step == Center
    requires p in st.sessions
    ensures var r := Logged(Dispatch(st, p, m, step), p, m, Center);
            && r.records == st.records
            && r.sessions == st.sessions[p := st.sessions[p].(votingCenter := Some(Trim(m)), step := Voted)]
            && Answered(st, r, p, m, Center, [CenterSaved(Trim(m))])
  {
    var center := Trim(m);
    assert Dispatch(st, p, m, step) == Sent(Updated(st, p, CenterGiven(center)), p, CenterSaved(center));
    Patched(st, p, m, Center, CenterGiven(center), CenterSaved(center));
  }

  lemma VotedEffect(st: Store, p: PhoneNumber, m: string, step: Step)
    requires step == Voted
    requires p in st.sessions
    ensures var r := Logged(Dispatch(st, p, m, step), p, m, Voted);
            var s := st.sessions[p];
            var answer := CommandText(m);
            && (SaysYes(answer) ==>
                  && r.sessions == st.sessions[p := s.(hasVoted := Some(true), step := Count)]
                  && r.records == st.records
                  && Answered(st, r, p, m, Voted, [VotedSaved]))
            && (!SaysYes(answer) && SaysNo(answer) ==>
                  && r.sessions == st.sessions[p := NotVoted(s)]
                  && r.records == st.records + [RecordOf(p, NotVoted(s))]
                  && Answered(st, r, p, m, Voted, [FinalSummary(RecordOf(p, NotVoted(s)))]))
            && (!SaysYes(answer) && !SaysNo(answer) ==>
                  && r.sessions == st.sessions && r.records == st.records
                  && Answered(st, r, p, m, Voted, [AskYesNo]))
  {
    var answer := CommandText(m);
    if SaysYes(answer) {
      assert Dispatch(st, p, m, step) == Sent(Updated(st, p, VotedYes), p, VotedSaved);
      Patched(st, p, m, Voted, VotedYes, VotedSaved);
    } else if SaysNo(answer) {
      assert Dispatch(st, p, m, step) == FinalReport(Updated(st, p, VotedNo), p);
      NotVotedCompletion(st, p, m);
    } else {
      assert Dispatch(st, p, m, step) == Sent(st, p, AskYesNo);
      Unpatched(st, p, m, Voted, AskYesNo);
    }
  }

  lemma CountEffect(st: Store, p: PhoneNumber, m: string, step: Step)
    requires step == Count
    requires p in st.sessions
    ensures var r := Logged(Dispatch(st, p, m, step), p, m, Count);
            var count := CountOf(m);
            && r.records == st.records
            && (count.Some? && count.value >= 0 ==>
                  && r.sessions == st.sessions[p := st.sessions[p].(votersCount := Some(count.value), step := Report)]
                  && Answered(st, r, p, m, Count, [CountSaved(count.value)]))
            && (count.None? || count.value < 0 ==>
                  r.sessions == st.sessions && Answered(st, r, p, m, Count, [AskCount]))
  {
    var count := CountOf(m);
    if count.Some? && count.value >= 0 {
      assert Dispatch(st, p, m, step) == Sent(Updated(st, p, CountGiven(count.value)), p, CountSaved(count.value));
      Patched(st, p, m, Count, CountGiven(count.value), CountSaved(count.value));
      CountApplied(st.sessions[p], count.value);
    } else {
      assert Dispatch(st, p, m, step) == Sent(st, p, AskCount);
      Unpatched(st, p, m, Count, AskCount);
    }
  }

  lemma ReportEffect(st: Store, p: PhoneNumber, m: string, step: Step)
    requires step == Report
    requires p in st.sessions
    ensures var r := Logged(Dispatch(st, p, m, step), p, m, Report);
            var report := Trim(m);
            var done := st.sessions[p].(userReport := Some(report), step := Completed);
            && (report != [] ==>
                  && r.sessions == st.sessions[p := done]
                  && r.records == st.records + [RecordOf(p, done)]
                  && Answered(st, r, p, m, Report, [ReportSaved(report), FinalSummary(RecordOf(p, done))]))
            && (report == [] ==>
                  && r.sessions == st.sessions && r.records == st.records
                  && Answered(st, r, p, m, Report, [AskReport]))
  {
    var report := Trim(m);
    if report != [] {
      assert Dispatch(st, p, m, step)
          == FinalReport(Sent(Updated(st, p, ReportGiven(report)), p, ReportSaved(report)), p);
      ReportCompletion(st, p, m, report);
    } else {
      assert Dispatch(st, p, m, step) == Sent(st, p, AskReport);
      Unpatched(st, p, m, Report, AskReport);
    }
  }

  lemma CompletedEffect(st: Store, p: PhoneNumber, m: string, step: Step)
    requires step == Completed
    ensures var r := Logged(Dispatch(st, p, m, step), p, m, Completed);
            && r.sessions == st.sessions && r.records == st.records
            && Answered(st, r, p, m, Completed, [RestartHint])
  {
    assert Dispatch(st, p, m, step) == Sent(st, p, RestartHint);
    Unpatched(st, p, m, Completed, RestartHint);
  }

  lemma UnknownEffect(st: Store, p: PhoneNumber, m: string, tag: string)
    ensures var r := Logged(Dispatch(st, p, m, Unknown(tag)), p, m, Unknown(tag));
            && r.sessions == st.sessions[p := NewSession]
            && r.records == st.records
            && Answered(st, r, p, m, Unknown(tag), [Welcome])
  {
    assert Dispatch(st, p, m, Unknown(tag)) == StartStep(Upserted(st, p), p);
    StartedOver(st, p, m, Unknown(tag));
  }

  /** Restart rule: without a session, or on a restart command, the session
      is overwritten with a fresh one at step `name`, the welcome text is
      sent, and the message is not taken as a name. */
  lemma RestartRule(st: Store, p: PhoneNumber, m: string)
    requires p !in st.sessions || IsRestartCommand(m)
    ensures var r := Handle(st, p, m);
            && r.sessions == st.sessions[p := NewSession]
            && r.records == st.records
            && Answered(st, r, p, m, Start, [Welcome])
  {
    assert Handle(st, p, m) == Logged(StartStep(Upserted(st, p), p), p, m, Start);
    StartedOver(st, p, m, Start);
  }

  /** A stored step `start` sends the welcome text and moves to `name`
      without clearing the answers. */
  lemma StartStepRule(st: Store, p: PhoneNumber, m: string)
    requires Continues(st, p, m) && st.sessions[p].step == Start
    ensures var r := Handle(st, p, m);
            && r.sessions == st.sessions[p := st.sessions[p].(step := Name)]
            && r.records == st.records
            && Answered(st, r, p, m, Start, [Welcome])
  {
    Dispatched(st, p, m);
    StartEffect(st, p, m, st.sessions[p].step);
  }

  /** Step `name`: a trimmed name of six or more characters is stored and
      the step moves to `area`; a shorter one is asked for again. */
  lemma NameRule(st: Store, p: PhoneNumber, m: string)
    requires Continues(st, p, m) && st.sessions[p].step == Name
    ensures var r := Handle(st, p, m);
            var name := Trim(m);
            && r.records == st.records
            && (Utf16Length(name) >= MinNameLength ==>
                  && r.sessions == st.sessions[p := st.sessions[p].(fullName := Some(name), step := Area)]
                  && Answered(st, r, p, m, Name, [NameSaved(name)]))
            && (Utf16Length(name) < MinNameLength ==>
                  r.sessions == st.sessions && Answered(st, r, p, m, Name, [AskFullName]))
  {
    Dispatched(st, p, m);
    NameEffect(st, p, m, st.sessions[p].step);
  }

  /** Step `area`: two or more characters are needed. */
  lemma AreaRule(st: Store, p: PhoneNumber, m: string)
    requires Continues(st, p, m) && st.sessions[p].step == Area
    ensures var r := Handle(st, p, m);
            var area := Trim(m);
            && r.records == st.records
            && (Utf16Length(area) >= MinAreaLength ==>
                  && r.sessions == st.sessions[p := st.sessions[p].(areaName := Some(area), step := Center)]
                  && Answered(st, r, p, m, Area, [AreaSaved(area)]))
            && (Utf16Length(area) < MinAreaLength ==>
                  r.sessions == st.sessions && Answered(st, r, p, m, Area, [AskArea]))
  {
    Dispatched(st, p, m);
    AreaEffect(st, p, m, st.sessions[p].step);
  }

  /** Step `center`: every answer is taken, the empty one included. */
  lemma CenterRule(st: Store, p: PhoneNumber, m: string)
    requires Continues(st, p, m) && st.sessions[p].step == Center
    ensures var r := Handle(st, p, m);
            && r.records == st.records
            && r.sessions == st.sessions[p := st.sessions[p].(votingCenter := Some(Trim(m)), step := Voted)]
            && Answered(st, r, p, m, Center, [CenterSaved(Trim(m))])
  {
    Dispatched(st, p, m);
    CenterEffect(st, p, m, st.sessions[p].step);
  }

  /** Step `voted`: an answer containing "نعم" or "yes" moves to `count`
      (even if it also contains a "no"); otherwise one containing "لا" or
      "no" completes the survey at once with the "did not vote" answers and
      exactly one record; anything else is asked for again. */
  lemma VotedRule(st: Store, p: PhoneNumber, m: string)
    requires Continues(st, p, m) && st.sessions[p].step == Voted
    ensures var r := Handle(st, p, m);
            var s := st.sessions[p];
            var answer := CommandText(m);
            && (SaysYes(answer) ==>
                  && r.sessions == st.sessions[p := s.(hasVoted := Some(true), step := Count)]
                  && r.records == st.records
                  && Answered(st, r, p, m, Voted, [VotedSaved]))
            && (!SaysYes(answer) && SaysNo(answer) ==>
                  && r.sessions == st.sessions[p := NotVoted(s)]
                  && r.records == st.records + [RecordOf(p, NotVoted(s))]
                  && Answered(st, r, p, m, Voted, [FinalSummary(RecordOf(p, NotVoted(s)))]))
            && (!SaysYes(answer) && !SaysNo(answer) ==>
                  && r.sessions == st.sessions && r.records == st.records
                  && Answered(st, r, p, m, Voted, [AskYesNo]))
  {
    Dispatched(st, p, m);
    VotedEffect(st, p, m, st.sessions[p].step);
  }

  /** Step `count`: a message that reads as a number of zero or more is
      stored and the step moves to `report`; otherwise it is asked for again. */
  lemma CountRule(st: Store, p: PhoneNumber, m: string)
    requires Continues(st, p, m) && st.sessions[p].step == Count
    ensures var r := Handle(st, p, m);
            var count := CountOf(m);
            && r.records == st.records
            && (count.Some? && count.value >= 0 ==>
                  && r.sessions == st.sessions[p := st.sessions[p].(votersCount := Some(count.value), step := Report)]
                  && Answered(st, r, p, m, Count, [CountSaved(count.value)]))
            && (count.None? || count.value < 0 ==>
                  r.sessions == st.sessions && Answered(st, r, p, m, Count, [AskCount]))
  {
    Dispatched(st, p, m);
    CountEffect(st, p, m, st.sessions[p].step);
  }

  /** Step `report`: an empty report is asked for again; any other is stored,
      the survey completes and exactly one record is inserted. */
  lemma ReportRule(st: Store, p: PhoneNumber, m: string)
    requires Continues(st, p, m) && st.sessions[p].step == Report
    ensures var r := Handle(st, p, m);
            var report := Trim(m);
            var done := st.sessions[p].(userReport := Some(report), step := Completed);
            && (report != [] ==>
                  && r.sessions == st.sessions[p := done]
                  && r.records == st.records + [RecordOf(p, done)]
                  && Answered(st, r, p, m, Report, [ReportSaved(report), FinalSummary(RecordOf(p, done))]))
            && (report == [] ==>
                  && r.sessions == st.sessions && r.records == st.records
                  && Answered(st, r, p, m, Report, [AskReport]))
  {
    Dispatched(st, p, m);
    ReportEffect(st, p, m, st.sessions[p].step);
  }

  /** Step `completed`: any message other than a restart command only gets
      the restart hint; nothing is stored and no record is inserted. */
  lemma CompletedRule(st: Store, p: PhoneNumber, m: string)
    requires Continues(st, p, m) && st.sessions[p].step == Completed
    ensures var r := Handle(st, p, m);
            && r.sessions == st.sessions && r.records == st.records
            && Answered(st, r, p, m, Completed, [RestartHint])
  {
    Dispatched(st, p, m);
    CompletedEffect(st, p, m, st.sessions[p].step);
  }

  /** An unrecognised step is recovered from by starting over. */
  lemma UnknownStepRule(st: Store, p: PhoneNumber, m: string)
    requires Continues(st, p, m) && st.sessions[p].step.Unknown?
    ensures var r := Handle(st, p, m);
            && r.sessions == st.sessions[p := NewSession]
            && r.records == st.records
            && Answered(st, r, p, m, st.sessions[p].step, [Welcome])
  {
    Dispatched(st, p, m);
    UnknownEffect(st, p, m, st.sessions[p].step.tag);
  }
}
