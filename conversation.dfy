/**
 * The survey conversation held with each reporter, as pure functions over
 * the contents of the stores it touches: the `user_sessions` rows keyed by
 * phone number, the `voting_records` table, the `conversation_logs` table
 * and the messages handed to the WhatsApp gateway. Each function mirrors one
 * handler of the server: it reads what the handler reads and returns the
 * stores as the handler leaves them.
 */
module Conversation {
  import opened Wrappers
  import opened JsText
  import opened Numerals
  import Phone

  type PhoneNumber = string

  /** `current_step` of a session row. `Unknown` stands for any stored value
      other than the eight names the dispatcher recognises. */
  datatype Step = Start | Name | Area | Center | Voted | Count | Report | Completed | Unknown(tag: string)

  /** A `user_sessions` row without its key; `None` is `null`. */
  datatype Session = Session(
    step: Step,
    fullName: Option<string>,
    areaName: Option<string>,
    votingCenter: Option<string>,
    hasVoted: Option<bool>,
    votersCount: Option<int>,
    userReport: Option<string>)

  /** A `voting_records` row. */
  datatype VotingRecord = VotingRecord(
    phone: PhoneNumber,
    fullName: Option<string>,
    areaName: Option<string>,
    votingCenter: Option<string>,
    hasVoted: Option<bool>,
    votersCount: int,
    userReport: string)

  /** The texts the bot sends, named by what they say, with the data they echo. */
  datatype Reply =
    | Welcome                          // greeting that asks for the full name
    | AskFullName                      // the name was too short
    | NameSaved(name: string)          // confirms the name, asks for the area
    | AskArea                          // the area was too short
    | AreaSaved(area: string)          // confirms the area, asks for the voting centre
    | CenterSaved(center: string)      // confirms the centre, asks "did you vote?"
    | VotedSaved                       // confirms "yes", asks how many voted along
    | AskYesNo                         // the answer held neither yes nor no
    | CountSaved(count: int)           // confirms the count, asks for a short report
    | AskCount                         // the count was not a number of zero or more
    | ReportSaved(report: string)      // confirms the report, announces the summary
    | AskReport                        // the report was empty
    | FinalSummary(record: VotingRecord) // the final summary of the saved record
    | FetchFailed                      // no session to build the summary from
    | RestartHint                      // "to start again, write بداية"

  /** A message handed to the gateway, addressed to the formatted number. */
  datatype Outgoing = Outgoing(to: string, body: Reply)

  /** A `conversation_logs` row: an inbound message with the step it was
      handled under, or a response the bot sent. */
  datatype LogEntry =
    | UserMessage(phone: PhoneNumber, message: string, step: Step)
    | BotResponse(phone: PhoneNumber, body: Reply)

  /** The update objects the handlers pass to `updateUserSession` and
      `updateUserStep`. */
  datatype Patch =
    | StepTo(step: Step)
    | NameGiven(name: string)
    | AreaGiven(area: string)
    | CenterGiven(center: string)
    | VotedYes
    | VotedNo
    | CountGiven(count: int)
    | ReportGiven(report: string)

  /** Everything the conversation reads and writes. */
  datatype Store = Store(
    sessions: map<PhoneNumber, Session>,
    records: seq<VotingRecord>,
    log: seq<LogEntry>,
    outbox: seq<Outgoing>)

  /** An inbound text message of the webhook: sender and body. */
  datatype Inbound = Inbound(from: PhoneNumber, text: string)

  /** One element of the webhook's `messages` array: its `type`, its sender
      and, for text messages, `text.body`. */
  datatype WebhookMessage = WebhookMessage(kind: string, from: PhoneNumber, body: string)

  const RestartCommands: set<string> := {"بداية", "ابدأ", "تصويت", "start"}
  const DidNotVote: string := "لم يقم بالتصويت"
  const NoReport: string := "لا يوجد تقرير"
  const MinNameLength: nat := 6
  const MinAreaLength: nat := 2

  /** The row `startNewSession` writes: step `name`, every answer `null`. */
  const NewSession: Session := Session(Name, None, None, None, None, None, None)

  /** `message.toLowerCase().trim()`, the form commands and yes/no answers
      are read in. */
  function CommandText(message: string): string {
    Trim(ToLower(message))
  }

  predicate IsRestartCommand(message: string) {
    CommandText(message) in RestartCommands
  }

  predicate SaysYes(answer: string) {
    Contains(answer, "نعم") || Contains(answer, "yes")
  }

  predicate SaysNo(answer: string) {
    Contains(answer, "لا") || Contains(answer, "no")
  }

  /** The count step's reading of a message: trimmed, Arabic-Indic digits
      converted, then `parseInt`. */
  function CountOf(message: string): Option<int> {
    ParseInt(NormalizeDigits(Trim(message)))
  }

  /** A session row after an update object is applied to it. */
  function Applied(s: Session, p: Patch): Session {
    match p
    case StepTo(step) => s.(step := step)
    case NameGiven(name) => s.(fullName := Some(name), step := Area)
    case AreaGiven(area) => s.(areaName := Some(area), step := Center)
    case CenterGiven(center) => s.(votingCenter := Some(center), step := Voted)
    case VotedYes => s.(hasVoted := Some(true), step := Count)
    case VotedNo =>
      s.(hasVoted := Some(false), votersCount := Some(0), userReport := Some(DidNotVote), step := Completed)
    case CountGiven(count) => s.(votersCount := Some(count), step := Report)
    case ReportGiven(report) => s.(userReport := Some(report), step := Completed)
  }

  /** `startNewSession`: an upsert of a fresh row. */
  function Upserted(st: Store, phone: PhoneNumber): Store {
    st.(sessions := st.sessions[phone := NewSession])
  }

  /** `update(...).eq('phone_number', phone)`: changes the row if there is one. */
  function Updated(st: Store, phone: PhoneNumber, p: Patch): Store {
    if phone in st.sessions then st.(sessions := st.sessions[phone := Applied(st.sessions[phone], p)])
    else st
  }

  /** `sendMessage`: the gateway gets the formatted number, the log the raw one. */
  function Sent(st: Store, to: PhoneNumber, body: Reply): Store {
    st.(outbox := st.outbox + [Outgoing(Phone.FormattedPhone(to), body)],
        log := st.log + [BotResponse(to, body)])
  }

  /** `logConversation`. */
  function Logged(st: Store, phone: PhoneNumber, message: string, step: Step): Store {
    st.(log := st.log + [UserMessage(phone, message, step)])
  }

  /** The record `generateFinalReport` inserts: `voters_count || 0` and
      `user_report || 'لا يوجد تقرير'` replace `null`, `0` and the empty text. */
  function RecordOf(phone: PhoneNumber, s: Session): VotingRecord {
    VotingRecord(
      phone, s.fullName, s.areaName, s.votingCenter, s.hasVoted,
      if s.votersCount.Some? then s.votersCount.value else 0,
      if s.userReport.Some? && s.userReport.value != "" then s.userReport.value else NoReport)
  }

  /** `handleStartStep`. */
  function StartStep(st: Store, phone: PhoneNumber): Store {
    Updated(Sent(st, phone, Welcome), phone, StepTo(Name))
  }

  /** `handleNameStep`. */
  function NameStep(st: Store, phone: PhoneNumber, message: string): Store {
    var cleanName := Trim(message);
    if Utf16Length(cleanName) < MinNameLength then Sent(st, phone, AskFullName)
    else Sent(Updated(st, phone, NameGiven(cleanName)), phone, NameSaved(cleanName))
  }

  /** `handleAreaStep`. */
  function AreaStep(st: Store, phone: PhoneNumber, message: string): Store {
    var areaName := Trim(message);
    if Utf16Length(areaName) < MinAreaLength then Sent(st, phone, AskArea)
    else Sent(Updated(st, phone, AreaGiven(areaName)), phone, AreaSaved(areaName))
  }

  /** `handleCenterStep`: every answer is taken. */
  function CenterStep(st: Store, phone: PhoneNumber, message: string): Store {
    var centerName := Trim(message);
    Sent(Updated(st, phone, CenterGiven(centerName)), phone, CenterSaved(centerName))
  }

  /** `handleVotedStep`: the yes-test is made first. */
  function VotedStep(st: Store, phone: PhoneNumber, message: string): Store {
    var answer := CommandText(message);
    if SaysYes(answer) then Sent(Updated(st, phone, VotedYes), phone, VotedSaved)
    else if SaysNo(answer) then FinalReport(Updated(st, phone, VotedNo), phone)
    else Sent(st, phone, AskYesNo)
  }

  /** `handleCountStep`. */
  function CountStep(st: Store, phone: PhoneNumber, message: string): Store {
    var count := CountOf(message);
    if count.None? || count.value < 0 then Sent(st, phone, AskCount)
    else Sent(Updated(st, phone, CountGiven(count.value)), phone, CountSaved(count.value))
  }

  /** `handleReportStep`. */
  function ReportStep(st: Store, phone: PhoneNumber, message: string): Store {
    var userReport := Trim(message);
    if |userReport| == 0 then Sent(st, phone, AskReport)
    else FinalReport(Sent(Updated(st, phone, ReportGiven(userReport)), phone, ReportSaved(userReport)), phone)
  }

  /** `generateFinalReport`: re-reads the session, inserts the record, sends
      the summary and sets the step to `completed`. */
  function FinalReport(st: Store, phone: PhoneNumber): Store {
    if phone !in st.sessions then Sent(st, phone, FetchFailed)
    else
      var rec := RecordOf(phone, st.sessions[phone]);
      Updated(Sent(st.(records := st.records + [rec]), phone, FinalSummary(rec)), phone, StepTo(Completed))
  }

  /** The `switch` of `handleVotingConversation` on the step. */
  function Dispatch(st: Store, phone: PhoneNumber, message: string, step: Step): Store {
    match step
    case Start => StartStep(st, phone)
    case Name => NameStep(st, phone, message)
    case Area => AreaStep(st, phone, message)
    case Center => CenterStep(st, phone, message)
    case Voted => VotedStep(st, phone, message)
    case Count => CountStep(st, phone, message)
    case Report => ReportStep(st, phone, message)
    case Completed => Sent(st, phone, RestartHint)
    case Unknown(_) => StartStep(Upserted(st, phone), phone)
  }

  /** `handleVotingConversation`: a reporter without a session, or one who
      sends a restart command, gets a fresh session handled as step `start`;
      the inbound message is logged last, with the step it was handled under. */
  function Handle(st: Store, phone: PhoneNumber, message: string): Store {
    var restart := phone !in st.sessions || IsRestartCommand(message);
    var step := if restart then Start else st.sessions[phone].step;
    var ready := if restart then Upserted(st, phone) else st;
    Logged(Dispatch(ready, phone, message, step), phone, message, step)
  }

  /** The inbound messages handled in turn. */
  function Run(st: Store, inbound: seq<Inbound>): Store {
    if inbound == [] then st
    else
      var last := inbound[|inbound| - 1];
      Handle(Run(st, inbound[..|inbound| - 1]), last.from, last.text)
  }

  /** The text messages of a webhook delivery, in array order. */
  function TextMessages(messages: seq<WebhookMessage>): seq<Inbound> {
    if messages == [] then []
    else
      var last := messages[|messages| - 1];
      TextMessages(messages[..|messages| - 1]) + (if last.kind == "text" then [Inbound(last.from, last.body)] else [])
  }

  /** An answer as a step stores it: trimmed and at least `min` UTF-16 code
      units long. */
  predicate Accepted(text: string, min: nat) {
    Trim(text) == text && Utf16Length(text) >= min
  }

  /** The name, area and centre answers are stored and valid. */
  predicate Located(s: Session) {
    && s.fullName.Some? && Accepted(s.fullName.value, MinNameLength)
    && s.areaName.Some? && Accepted(s.areaName.value, MinAreaLength)
    && s.votingCenter.Some? && Accepted(s.votingCenter.value, 0)
  }

  predicate NoVoteAnswers(s: Session) {
    s.hasVoted.None? && s.votersCount.None? && s.userReport.None?
  }

  /** The sessions the survey produces: the answers of the steps already
      passed are stored and valid, and the later ones are still `null`. A
      completed session holds either the full "voted" answers or the fixed
      "did not vote" ones. */
  ghost predicate WellFormed(s: Session) {
    match s.step
    case Name => s == NewSession
    case Area =>
      && s.fullName.Some? && Accepted(s.fullName.value, MinNameLength)
      && s.areaName.None? && s.votingCenter.None? && NoVoteAnswers(s)
    case Center =>
      && s.fullName.Some? && Accepted(s.fullName.value, MinNameLength)
      && s.areaName.Some? && Accepted(s.areaName.value, MinAreaLength)
      && s.votingCenter.None? && NoVoteAnswers(s)
    case Voted => Located(s) && NoVoteAnswers(s)
    case Count =>
      Located(s) && s.hasVoted == Some(true) && s.votersCount.None? && s.userReport.None?
    case Report =>
      && Located(s) && s.hasVoted == Some(true)
      && s.votersCount.Some? && s.votersCount.value >= 0 && s.userReport.None?
    case Completed =>
      && Located(s)
      && ((&& s.hasVoted == Some(true)
           && s.votersCount.Some? && s.votersCount.value >= 0
           && s.userReport.Some? && Accepted(s.userReport.value, 1))
          || (s.hasVoted == Some(false) && s.votersCount == Some(0) && s.userReport == Some(DidNotVote)))
    case Start => false
    case Unknown(_) => false
  }

  ghost predicate AllWellFormed(sessions: map<PhoneNumber, Session>) {
    forall q :: q in sessions ==> WellFormed(sessions[q])
  }
}
