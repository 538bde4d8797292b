/**
 * Whole conversations: a reporter who answers every question in turn ends
 * with exactly one stored record holding those answers, and the ways the
 * count and yes/no answers are read.
 */
module SurveyScenarios {
  import opened Wrappers
  import opened JsText
  import opened Numerals
  import opened Conversation
  import opened ConversationProofs
  import opened SurveyInvariants
  import Phone

  /** The record a reporter who voted leaves behind. */
  function VotedRecord(p: PhoneNumber, name: string, area: string, center: string, count: int, report: string): VotingRecord {
    VotingRecord(p, Some(name), Some(area), Some(center), Some(true), count, report)
  }

  /** The three location answers, from a fresh session to the voted question. */
  lemma LocationSteps(st: Store, p: PhoneNumber, name: string, area: string, center: string)
    requires p in st.sessions && st.sessions[p] == NewSession
    requires !IsRestartCommand(name) && !IsRestartCommand(area) && !IsRestartCommand(center)
    requires Utf16Length(Trim(name)) >= MinNameLength && Utf16Length(Trim(area)) >= MinAreaLength
    ensures var r := Handle(Handle(Handle(st, p, name), p, area), p, center);
            && r.records == st.records
            && p in r.sessions
            && r.sessions[p] == Session(Voted, Some(Trim(name)), Some(Trim(area)), Some(Trim(center)), None, None, None)
  {
    var s1 := Handle(st, p, name);
    NameRule(st, p, name);
    var s2 := Handle(s1, p, area);
    AreaRule(s1, p, area);
    CenterRule(s2, p, center);
  }

  /** The three voting answers, from the voted question to a stored record. */
  lemma VotingSteps(st: Store, p: PhoneNumber, answer: string, count: string, report: string, n: int)
    requires p in st.sessions && st.sessions[p].step == Voted
    requires !IsRestartCommand(answer) && !IsRestartCommand(count) && !IsRestartCommand(report)
    requires SaysYes(CommandText(answer))
    requires CountOf(count) == Some(n) && n >= 0
    requires Trim(report) != []
    ensures var r := Handle(Handle(Handle(st, p, answer), p, count), p, report);
            var s := st.sessions[p];
            && p in r.sessions
            && r.sessions[p] == s.(hasVoted := Some(true), votersCount := Some(n), userReport := Some(Trim(report)), step := Completed)
            && r.records == st.records + [VotingRecord(p, s.fullName, s.areaName, s.votingCenter, Some(true), n, Trim(report))]
  {
    var s1 := Handle(st, p, answer);
    VotedRule(st, p, answer);
    var s2 := Handle(s1, p, count);
    CountRule(s1, p, count);
    ReportRule(s2, p, report);
  }

  /** Running a short conversation is handling its messages one after
      another. */
  lemma RunSeven(st: Store, x1: Inbound, x2: Inbound, x3: Inbound, x4: Inbound, x5: Inbound, x6: Inbound, x7: Inbound)
    ensures Run(st, [x1, x2, x3, x4, x5, x6, x7])
            == Handle(Handle(Handle(Handle(Handle(Handle(Handle(st,
                 x1.from, x1.text), x2.from, x2.text), x3.from, x3.text), x4.from, x4.text),
                 x5.from, x5.text), x6.from, x6.text), x7.from, x7.text)
  {
    RunIsFold(st, [x1, x2, x3, x4, x5, x6, x7]);
    FoldSeven(st, x1, x2, x3, x4, x5, x6, x7, HandleInbound);
  }

  /** `FoldAppend` seven times, for any step. */
  lemma FoldSeven(st: Store, x1: Inbound, x2: Inbound, x3: Inbound, x4: Inbound, x5: Inbound, x6: Inbound, x7: Inbound,
                  step: (Store, Inbound) -> Store)
    ensures Fold(st, [x1, x2, x3, x4, x5, x6, x7], step)
            == step(step(step(step(step(step(step(st, x1), x2), x3), x4), x5), x6), x7)
  {
    FoldAppend(st, [], x1, step);
    assert [] + [x1] == [x1];
    FoldAppend(st, [x1], x2, step);
    assert [x1] + [x2] == [x1, x2];
    FoldAppend(st, [x1, x2], x3, step);
    assert [x1, x2] + [x3] == [x1, x2, x3];
    FoldAppend(st, [x1, x2, x3], x4, step);
    assert [x1, x2, x3] + [x4] == [x1, x2, x3, x4];
    FoldAppend(st, [x1, x2, x3, x4], x5, step);
    assert [x1, x2, x3, x4] + [x5] == [x1, x2, x3, x4, x5];
    FoldAppend(st, [x1, x2, x3, x4, x5], x6, step);
    assert [x1, x2, x3, x4, x5] + [x6] == [x1, x2, x3, x4, x5, x6];
    FoldAppend(st, [x1, x2, x3, x4, x5, x6], x7, step);
    assert [x1, x2, x3, x4, x5, x6] + [x7] == [x1, x2, x3, x4, x5, x6, x7];
  }

  /** A reporter who starts over, answers the six questions with acceptable
      answers and says they voted ends at `completed` with exactly one new
      record, which holds the trimmed answers. */
  lemma CompleteSurvey(st: Store, p: PhoneNumber, start: string, name: string, area: string, center: string,
                       answer: string, count: string, report: string, n: int)
    requires p !in st.sessions || IsRestartCommand(start)
    requires !IsRestartCommand(name) && !IsRestartCommand(area) && !IsRestartCommand(center)
    requires !IsRestartCommand(answer) && !IsRestartCommand(count) && !IsRestartCommand(report)
    requires Utf16Length(Trim(name)) >= MinNameLength && Utf16Length(Trim(area)) >= MinAreaLength
    requires SaysYes(CommandText(answer))
    requires CountOf(count) == Some(n) && n >= 0
    requires Trim(report) != []
    ensures var r := Run(st, [Inbound(p, start), Inbound(p, name), Inbound(p, area), Inbound(p, center),
                              Inbound(p, answer), Inbound(p, count), Inbound(p, report)]);
            && p in r.sessions && r.sessions[p].step == Completed
            && r.records == st.records + [VotedRecord(p, Trim(name), Trim(area), Trim(center), n, Trim(report))]
  {
    RunSeven(st, Inbound(p, start), Inbound(p, name), Inbound(p, area), Inbound(p, center),
             Inbound(p, answer), Inbound(p, count), Inbound(p, report));
    var s1 := Handle(st, p, start);
    RestartRule(st, p, start);
    LocationSteps(s1, p, name, area, center);
    var s4 := Handle(Handle(Handle(s1, p, name), p, area), p, center);
    VotingSteps(s4, p, answer, count, report, n);
  }

  /** A reporter who answers "no" at the voted question is done at once: the
      record says they did not vote, with no count and the fixed report. */
  lemma NotVotedSurvey(st: Store, p: PhoneNumber, answer: string)
    requires Continues(st, p, answer) && st.sessions[p].step == Voted
    requires !SaysYes(CommandText(answer)) && SaysNo(CommandText(answer))
    ensures var r := Handle(st, p, answer);
            var s := st.sessions[p];
            && p in r.sessions && r.sessions[p].step == Completed
            && r.records == st.records + [VotingRecord(p, s.fullName, s.areaName, s.votingCenter, Some(false), 0, DidNotVote)]
  {
    VotedRule(st, p, answer);
  }

  /** Once completed, every message that is not a restart command leaves the
      session and the records alone and gets the restart hint. */
  lemma CompletedIsFinal(st: Store, p: PhoneNumber, m: string)
    requires Continues(st, p, m) && st.sessions[p].step == Completed
    ensures var r := Handle(st, p, m);
            && r.sessions == st.sessions && r.records == st.records
            && r.outbox == st.outbox + [Outgoing(Phone.FormattedPhone(p), RestartHint)]
  {
    CompletedRule(st, p, m);
    assert Deliveries(p, [RestartHint]) == [Outgoing(Phone.FormattedPhone(p), RestartHint)];
  }

  /** A count written in Arabic-Indic digits is read as the number it shows. */
  lemma CountOfArabic(n: nat)
    ensures CountOf(ArabicDecimalString(n)) == Some(n)
  {
    var a := ArabicDecimalString(n);
    var d := DecimalString(n);
    ArabicUnpadded(a);
    NormalizeArabicDecimal(n);
    assert CountOf(a) == ParseInt(d);
    ParseIntDecimal(n, []);
    assert d + [] == d;
  }

  /** Arabic-Indic digits are not whitespace. */
  lemma ArabicUnpadded(a: string)
    requires forall k :: 0 <= k < |a| ==> IsArabicIndicDigit(a[k])
    ensures Trim(a) == a
  {
    if a != [] {
      assert IsArabicIndicDigit(a[0]) && IsArabicIndicDigit(a[|a| - 1]);
    }
    TrimUnpadded(a);
  }

  /** A count with no padding and no Arabic-Indic digits goes to `parseInt`
      as it is. */
  lemma CountOfPlain(s: string)
    requires s == [] || (!IsJsSpace(s[0]) && !IsJsSpace(s[|s| - 1]))
    requires forall k :: 0 <= k < |s| ==> !IsArabicIndicDigit(s[k])
    ensures CountOf(s) == ParseInt(s)
  {
    TrimUnpadded(s);
    NormalizeDigitsKeeps(s);
  }

  /** A count written in ASCII digits is read as the number it shows. */
  lemma CountOfDecimal(n: nat)
    ensures CountOf(DecimalString(n)) == Some(n)
  {
    var d := DecimalString(n);
    CountOfPlain(d);
    ParseIntDecimal(n, []);
    assert d + [] == d;
  }

  /** A negative count is read as a negative number, which the count step
      refuses. */
  lemma CountOfNegative(n: nat)
    requires n > 0
    ensures CountOf("-" + DecimalString(n)) == Some(-(n as int))
  {
    var d := DecimalString(n);
    var s := "-" + d;
    assert s[|s| - 1] == d[|d| - 1];
    assert forall k :: 1 <= k < |s| ==> s[k] == d[k - 1];
    CountOfPlain(s);
    ParseIntNegative(n, []);
    assert d + [] == d;
  }

  /** A count followed by words, such as "12 voters", is read as its leading
      number: `parseInt` stops at the first non-digit. */
  lemma CountOfLeadingNumber(n: nat, rest: string)
    requires rest != [] && rest[0] == ' '
    requires !IsJsSpace(rest[|rest| - 1])
    requires forall k :: 0 <= k < |rest| ==> !IsArabicIndicDigit(rest[k])
    ensures CountOf(DecimalString(n) + rest) == Some(n)
  {
    var d := DecimalString(n);
    var s := d + rest;
    assert s[0] == d[0] && s[|s| - 1] == rest[|rest| - 1];
    assert forall k :: 0 <= k < |d| ==> s[k] == d[k];
    assert forall k :: |d| <= k < |s| ==> s[k] == rest[k - |d|];
    CountOfPlain(s);
    ParseIntDecimal(n, rest);
  }

  /** The yes/no test is a substring test: "yes" or "no" anywhere in the
      answer counts. */
  lemma AnswerAnywhere(a: string, b: string)
    ensures SaysYes(a + "yes" + b)
    ensures SaysNo(a + "no" + b)
  {
    ContainsInfix(a, "yes", b);
    ContainsInfix(a, "no", b);
  }
}
