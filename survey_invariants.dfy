/**
 * What every message keeps, and so every sequence of messages: the step
 * only moves forward or back to `name`, other reporters are not touched,
 * the tables only grow, sessions stay in the shapes the survey produces, and
 * a record is inserted only on the two transitions into `completed`.
 */
module SurveyInvariants {
  import opened Wrappers
  import opened JsText
  import opened Conversation
  import opened ConversationProofs

  /** The step stays or moves forward along start, name, area, center,
      voted, count, report, completed (or straight from voted to completed).
      Going back to a fresh session is `Resets`, never a move. */
  predicate Moves(a: Step, b: Step) {
    || b == a
    || (a == Start && b == Name)
    || (a == Name && b == Area)
    || (a == Area && b == Center)
    || (a == Center && b == Voted)
    || (a == Voted && (b == Count || b == Completed))
    || (a == Count && b == Report)
    || (a == Report && b == Completed)
  }

  /** The sender's session is replaced by a fresh one: a new reporter, a
      restart command, or a stored step the switch does not recognise. */
  predicate Resets(sessions: map<PhoneNumber, Session>, p: PhoneNumber, m: string) {
    p !in sessions || IsRestartCommand(m) || sessions[p].step.Unknown?
  }

  /** A reset gives a fresh session; every other message only `Moves` the
      step, so no answer is ever lost without a reset. */
  lemma StepOrder(st: Store, p: PhoneNumber, m: string)
    ensures var r := Handle(st, p, m);
            && p in r.sessions
            && (Resets(st.sessions, p, m) ==> r.sessions[p] == NewSession)
            && (!Resets(st.sessions, p, m) ==> Moves(st.sessions[p].step, r.sessions[p].step))
  {
    if p !in st.sessions || IsRestartCommand(m) {
      RestartRule(st, p, m);
    } else {
      ContinueMoves(st, p, m);
    }
  }

  /** The reply sequence of an answered message ends the logs it extends. */
  lemma AnsweredAppends(st: Store, r: Store, p: PhoneNumber, m: string, step: Step, replies: seq<Reply>)
    requires Answered(st, r, p, m, step, replies)
    ensures st.outbox <= r.outbox && st.log <= r.log
    ensures |r.log| > |st.log| && r.log[|r.log| - 1] == UserMessage(p, m, step)
  {
  }

  /** `r` changed at most the row of `p`, kept the records it had and
      appended to the outbox and the log, ending with the inbound message. */
  ghost predicate Framed(st: Store, r: Store, p: PhoneNumber, m: string, step: Step) {
    && p in r.sessions
    && (forall q :: q != p ==> (q in r.sessions <==> q in st.sessions))
    && (forall q :: q != p && q in st.sessions ==> r.sessions[q] == st.sessions[q])
    && st.records <= r.records && st.outbox <= r.outbox && st.log <= r.log
    && |r.log| > |st.log| && r.log[|r.log| - 1] == UserMessage(p, m, step)
  }

  /** Rewriting one row, adding records and answering frames the change. */
  lemma FramedBy(st: Store, r: Store, p: PhoneNumber, m: string, step: Step, s: Session, replies: seq<Reply>)
    requires r.sessions == st.sessions[p := s]
    requires st.records <= r.records
    requires Answered(st, r, p, m, step, replies)
    ensures Framed(st, r, p, m, step)
  {
    AnsweredAppends(st, r, p, m, step, replies);
  }

  /** The same, for a message that leaves the row as it was. */
  lemma FramedUnchanged(st: Store, r: Store, p: PhoneNumber, m: string, step: Step, replies: seq<Reply>)
    requires p in st.sessions && r.sessions == st.sessions
    requires r.records == st.records
    requires Answered(st, r, p, m, step, replies)
    ensures Framed(st, r, p, m, step)
  {
    FramedBy(st, r, p, m, step, st.sessions[p], replies);
  }

  /** A continuing session changes at most its own row and only appends. */
  lemma ContinueFrame(st: Store, p: PhoneNumber, m: string)
    requires Continues(st, p, m)
    ensures Framed(st, Handle(st, p, m), p, m, st.sessions[p].step)
  {
    var r := Handle(st, p, m);
    var s := st.sessions[p];
    match s.step
    case Start => StartStepRule(st, p, m); FramedBy(st, r, p, m, Start, s.(step := Name), [Welcome]);
    case Name =>
      NameRule(st, p, m);
      var name := Trim(m);
      if Utf16Length(name) >= MinNameLength {
        FramedBy(st, r, p, m, Name, s.(fullName := Some(name), step := Area), [NameSaved(name)]);
      } else {
        FramedUnchanged(st, r, p, m, Name, [AskFullName]);
      }
    case Area =>
      AreaRule(st, p, m);
      var area := Trim(m);
      if Utf16Length(area) >= MinAreaLength {
        FramedBy(st, r, p, m, Area, s.(areaName := Some(area), step := Center), [AreaSaved(area)]);
      } else {
        FramedUnchanged(st, r, p, m, Area, [AskArea]);
      }
    case Center =>
      CenterRule(st, p, m);
      FramedBy(st, r, p, m, Center, s.(votingCenter := Some(Trim(m)), step := Voted), [CenterSaved(Trim(m))]);
    case Voted =>
      VotedRule(st, p, m);
      var answer := CommandText(m);
      if SaysYes(answer) {
        FramedBy(st, r, p, m, Voted, s.(hasVoted := Some(true), step := Count), [VotedSaved]);
      } else if SaysNo(answer) {
        FramedBy(st, r, p, m, Voted, NotVoted(s), [FinalSummary(RecordOf(p, NotVoted(s)))]);
      } else {
        FramedUnchanged(st, r, p, m, Voted, [AskYesNo]);
      }
    case Count =>
      CountRule(st, p, m);
      var count := CountOf(m);
      if count.Some? && count.value >= 0 {
        FramedBy(st, r, p, m, Count, s.(votersCount := Some(count.value), step := Report), [CountSaved(count.value)]);
      } else {
        FramedUnchanged(st, r, p, m, Count, [AskCount]);
      }
    case Report =>
      ReportRule(st, p, m);
      var report := Trim(m);
      var done := s.(userReport := Some(report), step := Completed);
      if report != [] {
        FramedBy(st, r, p, m, Report, done, [ReportSaved(report), FinalSummary(RecordOf(p, done))]);
      } else {
        FramedUnchanged(st, r, p, m, Report, [AskReport]);
      }
    case Completed => CompletedRule(st, p, m); FramedUnchanged(st, r, p, m, Completed, [RestartHint]);
    case Unknown(_) => UnknownStepRule(st, p, m); FramedBy(st, r, p, m, s.step, NewSession, [Welcome]);
  }

  /** A continuing session's known step obeys `Moves`; an unknown one is
      reset. */
  lemma ContinueMoves(st: Store, p: PhoneNumber, m: string)
    requires Continues(st, p, m)
    ensures var r := Handle(st, p, m);
            && p in r.sessions
            && (st.sessions[p].step.Unknown? ==> r.sessions[p] == NewSession)
            && (!st.sessions[p].step.Unknown? ==> Moves(st.sessions[p].step, r.sessions[p].step))
  {
    match st.sessions[p].step
    case Start => StartStepRule(st, p, m);
    case Name => NameRule(st, p, m);
    case Area => AreaRule(st, p, m);
    case Center => CenterRule(st, p, m);
    case Voted => VotedRule(st, p, m);
    case Count => CountRule(st, p, m);
    case Report => ReportRule(st, p, m);
    case Completed => CompletedRule(st, p, m);
    case Unknown(_) => UnknownStepRule(st, p, m);
  }

  /** A continuing session inserts a record exactly when it moves from
      `voted` or `report` into `completed`. */
  lemma ContinueRecords(st: Store, p: PhoneNumber, m: string)
    requires Continues(st, p, m)
    ensures var r := Handle(st, p, m);
            && p in r.sessions
            && (r.records == st.records || r.records == st.records + [RecordOf(p, r.sessions[p])])
            && (r.records != st.records <==>
                  (st.sessions[p].step == Voted || st.sessions[p].step == Report) && r.sessions[p].step == Completed)
  {
    match st.sessions[p].step
    case Start => StartStepRule(st, p, m);
    case Name => NameRule(st, p, m);
    case Area => AreaRule(st, p, m);
    case Center => CenterRule(st, p, m);
    case Voted => VotedRule(st, p, m);
    case Count => CountRule(st, p, m);
    case Report => ReportRule(st, p, m);
    case Completed => CompletedRule(st, p, m);
    case Unknown(_) => UnknownStepRule(st, p, m);
  }

  /** Nothing else changes: other reporters' sessions are untouched, the
      tables and the outbox only grow, and the inbound message is the last
      row logged. */
  lemma HandleFrame(st: Store, p: PhoneNumber, m: string)
    ensures var r := Handle(st, p, m);
            && (forall q :: q != p ==> (q in r.sessions <==> q in st.sessions))
            && (forall q :: q != p && q in st.sessions ==> r.sessions[q] == st.sessions[q])
            && st.records <= r.records
            && st.outbox <= r.outbox
            && st.log <= r.log && |r.log| > |st.log|
            && r.log[|r.log| - 1] == UserMessage(p, m, if p !in st.sessions || IsRestartCommand(m) then Start else st.sessions[p].step)
  {
    if p !in st.sessions || IsRestartCommand(m) {
      RestartRule(st, p, m);
      AnsweredAppends(st, Handle(st, p, m), p, m, Start, [Welcome]);
    } else {
      ContinueFrame(st, p, m);
    }
  }

  /** Records are inserted only on the two transitions into `completed`,
      one at a time, and hold the session as it was completed. */
  lemma RecordsOnCompletion(st: Store, p: PhoneNumber, m: string)
    ensures var r := Handle(st, p, m);
            && p in r.sessions
            && (r.records == st.records || r.records == st.records + [RecordOf(p, r.sessions[p])])
            && (r.records != st.records <==>
                  && Continues(st, p, m)
                  && (st.sessions[p].step == Voted || st.sessions[p].step == Report)
                  && r.sessions[p].step == Completed)
  {
    if p !in st.sessions || IsRestartCommand(m) {
      RestartRule(st, p, m);
    } else {
      ContinueRecords(st, p, m);
    }
  }

  /** A record of a completed survey: every answer present, a count of zero
      or more, a non-empty report, and the fixed answers when the reporter
      did not vote. */
  predicate CompleteRecord(rec: VotingRecord) {
    && rec.fullName.Some? && rec.areaName.Some? && rec.votingCenter.Some? && rec.hasVoted.Some?
    && rec.votersCount >= 0 && rec.userReport != []
    && (rec.hasVoted == Some(false) ==> rec.votersCount == 0 && rec.userReport == DidNotVote)
  }

  /** The record of a completed session the survey produced is complete, and
      the `|| 0` and `|| 'لا يوجد تقرير'` defaults never apply to it. */
  lemma CompletedRecord(p: PhoneNumber, s: Session)
    requires WellFormed(s) && s.step == Completed
    ensures s.votersCount.Some? && s.userReport.Some?
    ensures RecordOf(p, s) == VotingRecord(p, s.fullName, s.areaName, s.votingCenter, s.hasVoted, s.votersCount.value, s.userReport.value)
    ensures CompleteRecord(RecordOf(p, s))
  {
    var report := s.userReport.value;
    assert Utf16Length(report) >= 1 ==> |report| >= 1;
    assert report != [];
  }

  /** A message keeps the reporter's session in a shape the survey produces:
      starting from such a session, from none, from an unrecognised step or
      on a restart command. */
  lemma HandleKeepsWellFormed(st: Store, p: PhoneNumber, m: string)
    ensures var r := Handle(st, p, m);
            && p in r.sessions
            && ((p !in st.sessions || IsRestartCommand(m) || WellFormed(st.sessions[p]) || st.sessions[p].step.Unknown?)
                  ==> WellFormed(r.sessions[p]))
            && (AllWellFormed(st.sessions) ==> AllWellFormed(r.sessions))
  {
    var r := Handle(st, p, m);
    SenderWellFormed(st, p, m);
    HandleFrame(st, p, m);
    if AllWellFormed(st.sessions) {
      forall q | q in r.sessions
        ensures WellFormed(r.sessions[q])
      {
        if q != p {
          assert r.sessions[q] == st.sessions[q];
        }
      }
    }
  }

  /** The sender's half of `HandleKeepsWellFormed`. */
  lemma SenderWellFormed(st: Store, p: PhoneNumber, m: string)
    ensures var r := Handle(st, p, m);
            && p in r.sessions
            && ((p !in st.sessions || IsRestartCommand(m) || WellFormed(st.sessions[p]) || st.sessions[p].step.Unknown?)
                  ==> WellFormed(r.sessions[p]))
  {
    if p !in st.sessions || IsRestartCommand(m) {
      RestartRule(st, p, m);
    } else if WellFormed(st.sessions[p]) || st.sessions[p].step.Unknown? {
      ContinueWellFormed(st, p, m);
    } else {
      ContinueFrame(st, p, m);
    }
  }

  /** The survey as a transition on one session: what each step does with
      the user's answer, independently of the store, the log and the
      outgoing messages. */
  function Next(s: Session, m: string): (t: Session)
    ensures if s.step.Unknown? then t == NewSession else Moves(s.step, t.step)
  {
    match s.step
    case Start => s.(step := Name)
    case Name =>
      if Utf16Length(Trim(m)) >= MinNameLength then s.(fullName := Some(Trim(m)), step := Area) else s
    case Area =>
      if Utf16Length(Trim(m)) >= MinAreaLength then s.(areaName := Some(Trim(m)), step := Center) else s
    case Center => s.(votingCenter := Some(Trim(m)), step := Voted)
    case Voted =>
      if SaysYes(CommandText(m)) then s.(hasVoted := Some(true), step := Count)
      else if SaysNo(CommandText(m)) then NotVoted(s)
      else s
    case Count =>
      if CountOf(m).Some? && CountOf(m).value >= 0 then s.(votersCount := Some(CountOf(m).value), step := Report)
      else s
    case Report =>
      if Trim(m) != [] then s.(userReport := Some(Trim(m)), step := Completed) else s
    case Completed => s
    case Unknown(_) => NewSession
  }

  /** A message that continues a conversation changes the sender's session
      exactly as `Next` says. */
  lemma ContinueNext(st: Store, p: PhoneNumber, m: string)
    requires Continues(st, p, m)
    ensures var r := Handle(st, p, m);
            p in r.sessions && r.sessions[p] == Next(st.sessions[p], m)
  {
    match st.sessions[p].step
    case Start => StartStepRule(st, p, m);
    case Name => NameRule(st, p, m);
    case Area => AreaRule(st, p, m);
    case Center => CenterRule(st, p, m);
    case Voted => VotedRule(st, p, m);
    case Count => CountRule(st, p, m);
    case Report => ReportRule(st, p, m);
    case Completed => CompletedRule(st, p, m);
    case Unknown(_) => UnknownStepRule(st, p, m);
  }

  /** Every survey transition keeps a session well formed, and a session with
      an unknown step is replaced by a well-formed one. */
  lemma NextWellFormed(s: Session, m: string)
    requires WellFormed(s) || s.step.Unknown?
    ensures WellFormed(Next(s, m))
  {
    match s.step
    case Start => assert false;
    case Name => NameKeepsWellFormed(s, m);
    case Area => AreaKeepsWellFormed(s, m);
    case Center => CenterKeepsWellFormed(s, m);
    case Voted => VotedKeepsWellFormed(s, m);
    case Count => CountKeepsWellFormed(s, m);
    case Report => ReportKeepsWellFormed(s, m);
    case Completed => CompletedKeepsWellFormed(s, m);
    case Unknown(_) => UnknownKeepsWellFormed(s, m);
  }

  // One lemma per step keeps each proof to the facts that step needs.

  lemma NameKeepsWellFormed(s: Session, m: string)
    requires WellFormed(s) && s.step == Name
    ensures WellFormed(Next(s, m))
  {
    TrimIdempotent(m);
  }

  lemma AreaKeepsWellFormed(s: Session, m: string)
    requires WellFormed(s) && s.step == Area
    ensures WellFormed(Next(s, m))
  {
    TrimIdempotent(m);
  }

  lemma CenterKeepsWellFormed(s: Session, m: string)
    requires WellFormed(s) && s.step == Center
    ensures WellFormed(Next(s, m))
  {
    TrimIdempotent(m);
  }

  lemma VotedKeepsWellFormed(s: Session, m: string)
    requires WellFormed(s) && s.step == Voted
    ensures WellFormed(Next(s, m))
  {
    var answer := CommandText(m);
    if SaysYes(answer) {
      assert Next(s, m) == s.(hasVoted := Some(true), step := Count);
    } else if SaysNo(answer) {
      assert Next(s, m) == NotVoted(s);
    } else {
      assert Next(s, m) == s;
    }
  }

  lemma CountKeepsWellFormed(s: Session, m: string)
    requires WellFormed(s) && s.step == Count
    ensures WellFormed(Next(s, m))
  {
  }

  lemma ReportKeepsWellFormed(s: Session, m: string)
    requires WellFormed(s) && s.step == Report
    ensures WellFormed(Next(s, m))
  {
    TrimIdempotent(m);
    assert Utf16Length(Trim(m)) >= |Trim(m)|;
  }

  lemma CompletedKeepsWellFormed(s: Session, m: string)
    requires WellFormed(s) && s.step == Completed
    ensures WellFormed(Next(s, m))
  {
  }

  lemma UnknownKeepsWellFormed(s: Session, m: string)
    requires s.step.Unknown?
    ensures WellFormed(Next(s, m))
  {
  }

  lemma ContinueWellFormed(st: Store, p: PhoneNumber, m: string)
    requires Continues(st, p, m)
    requires WellFormed(st.sessions[p]) || st.sessions[p].step.Unknown?
    ensures var r := Handle(st, p, m);
            p in r.sessions && WellFormed(r.sessions[p])
  {
    ContinueNext(st, p, m);
    NextWellFormed(st.sessions[p], m);
  }

  lemma HandleRecordsComplete(st: Store, p: PhoneNumber, m: string)
    requires AllWellFormed(st.sessions)
    ensures var r := Handle(st, p, m);
            r.records == st.records || (|r.records| == |st.records| + 1 && r.records[..|st.records|] == st.records
                                        && CompleteRecord(r.records[|st.records|]))
  {
    var r := Handle(st, p, m);
    RecordsOnCompletion(st, p, m);
    HandleKeepsWellFormed(st, p, m);
    if r.records != st.records {
      CompletedRecord(p, r.sessions[p]);
      assert r.records[|st.records|] == RecordOf(p, r.sessions[p]);
    }
  }

  /** The `i`-th inbound message is handled on the stores the first `i` left. */
  lemma RunStep(st: Store, inbound: seq<Inbound>, i: nat)
    requires i < |inbound|
    ensures Run(st, inbound[..i + 1]) == Handle(Run(st, inbound[..i]), inbound[i].from, inbound[i].text)
  {
    assert inbound[..i + 1][..i] == inbound[..i];
  }

  /** Handling one more inbound message extends a run by one `Handle`. */
  lemma RunAppend(st: Store, inbound: seq<Inbound>, x: Inbound)
    ensures Run(st, inbound + [x]) == Handle(Run(st, inbound), x.from, x.text)
  {
    assert (inbound + [x])[..|inbound|] == inbound;
  }

  /** A left fold of `step` over the inbound messages; `Run` is the fold of
      `HandleInbound`. */
  function Fold(st: Store, inbound: seq<Inbound>, step: (Store, Inbound) -> Store): Store {
    if inbound == [] then st
    else step(Fold(st, inbound[..|inbound| - 1], step), inbound[|inbound| - 1])
  }

  function HandleInbound(st: Store, x: Inbound): Store {
    Handle(st, x.from, x.text)
  }

  lemma {:induction false} RunIsFold(st: Store, inbound: seq<Inbound>)
    ensures Run(st, inbound) == Fold(st, inbound, HandleInbound)
    decreases |inbound|
  {
    if inbound != [] {
      RunIsFold(st, inbound[..|inbound| - 1]);
    }
  }

  lemma FoldAppend(st: Store, inbound: seq<Inbound>, x: Inbound, step: (Store, Inbound) -> Store)
    ensures Fold(st, inbound + [x], step) == step(Fold(st, inbound, step), x)
  {
    assert (inbound + [x])[..|inbound|] == inbound;
  }

  /** One more webhook entry adds its text, if it is a text message, to the
      inbound messages. */
  lemma TextMessagesStep(messages: seq<WebhookMessage>, i: nat)
    requires i < |messages|
    ensures TextMessages(messages[..i + 1])
            == TextMessages(messages[..i])
               + (if messages[i].kind == "text" then [Inbound(messages[i].from, messages[i].body)] else [])
  {
    assert messages[..i + 1][..i] == messages[..i];
  }

  /** Step ordering over any sequence of messages: each message resets its
      sender's session or moves its step as `Moves` allows, and leaves every
      other reporter alone. */
  lemma RunStepOrder(st: Store, inbound: seq<Inbound>, i: nat)
    requires i < |inbound|
    ensures var before := Run(st, inbound[..i]);
            var after := Run(st, inbound[..i + 1]);
            var p := inbound[i].from;
            && p in after.sessions
            && (Resets(before.sessions, p, inbound[i].text) ==> after.sessions[p] == NewSession)
            && (!Resets(before.sessions, p, inbound[i].text) ==> Moves(before.sessions[p].step, after.sessions[p].step))
            && (forall q :: q != p && q in before.sessions ==> q in after.sessions && after.sessions[q] == before.sessions[q])
  {
    RunStep(st, inbound, i);
    StepOrder(Run(st, inbound[..i]), inbound[i].from, inbound[i].text);
    HandleFrame(Run(st, inbound[..i]), inbound[i].from, inbound[i].text);
  }

  /** Over any sequence of messages from well-formed sessions: sessions stay
      well-formed, the records table only grows, by at most one record per
      message, and every record added is complete. */
  lemma {:induction false} RunInvariant(st: Store, inbound: seq<Inbound>)
    requires AllWellFormed(st.sessions)
    ensures var r := Run(st, inbound);
            && AllWellFormed(r.sessions)
            && |st.records| <= |r.records| <= |st.records| + |inbound|
            && r.records[..|st.records|] == st.records
            && (forall i :: |st.records| <= i < |r.records| ==> CompleteRecord(r.records[i]))
  {
    if inbound != [] {
      var prefix := inbound[..|inbound| - 1];
      var last := inbound[|inbound| - 1];
      RunInvariant(st, prefix);
      var mid := Run(st, prefix);
      HandleKeepsWellFormed(mid, last.from, last.text);
      HandleRecordsComplete(mid, last.from, last.text);
      var r := Run(st, inbound);
      assert r == Handle(mid, last.from, last.text);
      GrowsByComplete(st.records, mid.records, r.records);
    }
  }

  /** Appending at most one complete record keeps a table that extends `base`
      with complete records. */
  lemma GrowsByComplete(base: seq<VotingRecord>, mid: seq<VotingRecord>, next: seq<VotingRecord>)
    requires |base| <= |mid| && mid[..|base|] == base
    requires forall i :: |base| <= i < |mid| ==> CompleteRecord(mid[i])
    requires next == mid || (|next| == |mid| + 1 && next[..|mid|] == mid && CompleteRecord(next[|mid|]))
    ensures |base| <= |next| <= |mid| + 1 && next[..|base|] == base
    ensures forall i :: |base| <= i < |next| ==> CompleteRecord(next[i])
  {
    if next != mid {
      assert next[..|base|] == mid[..|base|];
      forall i | |base| <= i < |next|
        ensures CompleteRecord(next[i])
      {
        if i < |mid| {
          assert next[i] == mid[i];
        }
      }
    }
  }
}
