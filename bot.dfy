/**
 * The server's handlers as they run: one object holds the rows of the three
 * tables and the gateway's outbox, and each method changes them in the order
 * the handler issues its store and send calls.
 */
module Bot {
  import opened Wrappers
  import opened JsText
  import opened Numerals
  import opened Conversation
  import Phone
  import opened SurveyInvariants

  class VotingBot {
    var sessions: map<PhoneNumber, Session>
    var records: seq<VotingRecord>
    var log: seq<LogEntry>
    var outbox: seq<Outgoing>

    /** The stores as a value. */
    function Model(): Store
      reads this
    {
      Store(sessions, records, log, outbox)
    }

    /** Every reporter's session is one the survey can reach. */
    ghost predicate Valid()
      reads this
    {
      AllWellFormed(sessions)
    }

    constructor ()
      ensures Model() == Store(map[], [], [], [])
      ensures Valid()
    {
      sessions, records, log, outbox := map[], [], [], [];
    }

    /** `getUserSession`. */
    method GetUserSession(phone: PhoneNumber) returns (session: Option<Session>)
      ensures session.Some? <==> phone in sessions
      ensures session.Some? ==> session.value == sessions[phone]
    {
      session := if phone in sessions then Some(sessions[phone]) else None;
    }

    /** `sendMessage`, when the gateway accepts the message. */
    method SendMessage(to: PhoneNumber, body: Reply)
      modifies this
      ensures Model() == Sent(old(Model()), to, body)
    {
      var formattedNumber := Phone.FormatPhone(to);
      outbox := outbox + [Outgoing(formattedNumber, body)];
      log := log + [BotResponse(to, body)];
    }

    /** `startNewSession`. */
    method StartNewSession(phone: PhoneNumber)
      modifies this
      ensures Model() == Upserted(old(Model()), phone)
    {
      sessions := sessions[phone := NewSession];
    }

    /** `updateUserSession`; `updateUserStep` is the `StepTo` patch. */
    method UpdateUserSession(phone: PhoneNumber, updates: Patch)
      modifies this
      ensures Model() == Updated(old(Model()), phone, updates)
    {
      if phone in sessions {
        sessions := sessions[phone := Applied(sessions[phone], updates)];
      }
    }

    /** `logConversation`. */
    method LogConversation(phone: PhoneNumber, userMessage: string, userStep: Step)
      modifies this
      ensures Model() == Logged(old(Model()), phone, userMessage, userStep)
    {
      log := log + [UserMessage(phone, userMessage, userStep)];
    }

    /** `handleStartStep`. */
    method HandleStartStep(phone: PhoneNumber)
      modifies this
      ensures Model() == StartStep(old(Model()), phone)
    {
      SendMessage(phone, Welcome);
      UpdateUserSession(phone, StepTo(Name));
    }

    /** `handleNameStep`. */
    method HandleNameStep(phone: PhoneNumber, message: string)
      modifies this
      ensures Model() == NameStep(old(Model()), phone, message)
    {
      var cleanName := Trim(message);
      if Utf16Length(cleanName) < MinNameLength {
        SendMessage(phone, AskFullName);
        return;
      }
      UpdateUserSession(phone, NameGiven(cleanName));
      SendMessage(phone, NameSaved(cleanName));
    }

    /** `handleAreaStep`. */
    method HandleAreaStep(phone: PhoneNumber, message: string)
      modifies this
      ensures Model() == AreaStep(old(Model()), phone, message)
    {
      var areaName := Trim(message);
      if Utf16Length(areaName) < MinAreaLength {
        SendMessage(phone, AskArea);
        return;
      }
      UpdateUserSession(phone, AreaGiven(areaName));
      SendMessage(phone, AreaSaved(areaName));
    }

    /** `handleCenterStep`. */
    method HandleCenterStep(phone: PhoneNumber, message: string)
      modifies this
      ensures Model() == CenterStep(old(Model()), phone, message)
    {
      var centerName := Trim(message);
      UpdateUserSession(phone, CenterGiven(centerName));
      SendMessage(phone, CenterSaved(centerName));
    }

    /** `handleVotedStep`. */
    method HandleVotedStep(phone: PhoneNumber, message: string)
      modifies this
      ensures Model() == VotedStep(old(Model()), phone, message)
    {
      var answer := CommandText(message);
      if SaysYes(answer) {
        UpdateUserSession(phone, VotedYes);
        SendMessage(phone, VotedSaved);
      } else if SaysNo(answer) {
        UpdateUserSession(phone, VotedNo);
        GenerateFinalReport(phone);
      } else {
        SendMessage(phone, AskYesNo);
      }
    }

    /** `handleCountStep`, with its digit-conversion loop. */
    method HandleCountStep(phone: PhoneNumber, message: string)
      modifies this
      ensures Model() == CountStep(old(Model()), phone, message)
    {
      var countText := ConvertArabicDigits(Trim(message));
      var count := ParseInt(countText);
      if count.None? || count.value < 0 {
        SendMessage(phone, AskCount);
        return;
      }
      UpdateUserSession(phone, CountGiven(count.value));
      SendMessage(phone, CountSaved(count.value));
    }

    /** `handleReportStep`. */
    method HandleReportStep(phone: PhoneNumber, message: string)
      modifies this
      ensures Model() == ReportStep(old(Model()), phone, message)
    {
      var userReport := Trim(message);
      if |userReport| == 0 {
        SendMessage(phone, AskReport);
        return;
      }
      UpdateUserSession(phone, ReportGiven(userReport));
      SendMessage(phone, ReportSaved(userReport));
      GenerateFinalReport(phone);
    }

    /** `generateFinalReport`. */
    method GenerateFinalReport(phone: PhoneNumber)
      modifies this
      ensures Model() == FinalReport(old(Model()), phone)
    {
      var userSession := GetUserSession(phone);
      if userSession.None? {
        SendMessage(phone, FetchFailed);
        return;
      }
      var rec := RecordOf(phone, userSession.value);
      records := records + [rec];
      SendMessage(phone, FinalSummary(rec));
      UpdateUserSession(phone, StepTo(Completed));
    }

    /** `handleVotingConversation`. */
    method HandleVotingConversation(phone: PhoneNumber, message: string)
      modifies this
      ensures Model() == Handle(old(Model()), phone, message)
      ensures old(Valid()) ==> Valid()
    {
      var userSession := GetUserSession(phone);
      var isRestartCommand := IsRestartCommand(message);
      var currentStep: Step;
      if userSession.None? || isRestartCommand {
        StartNewSession(phone);
        currentStep := Start;
      } else {
        currentStep := userSession.value.step;
      }
      match currentStep {
        case Start => HandleStartStep(phone);
        case Name => HandleNameStep(phone, message);
        case Area => HandleAreaStep(phone, message);
        case Center => HandleCenterStep(phone, message);
        case Voted => HandleVotedStep(phone, message);
        case Count => HandleCountStep(phone, message);
        case Report => HandleReportStep(phone, message);
        case Completed => SendMessage(phone, RestartHint);
        case Unknown(_) =>
          StartNewSession(phone);
          HandleStartStep(phone);
      }
      LogConversation(phone, message, currentStep);
      HandleKeepsWellFormed(old(Model()), phone, message);
    }

    /** The POST `/webhook` loop: text messages are handled in array order,
        every other kind is skipped. */
    method ProcessWebhook(messages: seq<WebhookMessage>)
      modifies this
      ensures Model() == Run(old(Model()), TextMessages(messages))
      ensures old(Valid()) ==> Valid()
    {
      for i := 0 to |messages|
        invariant Model() == Run(old(Model()), TextMessages(messages[..i]))
        invariant old(Valid()) ==> Valid()
      {
        var message := messages[i];
        ghost var inbound := TextMessages(messages[..i]);
        TextMessagesStep(messages, i);
        if message.kind == "text" {
          var x := Inbound(message.from, message.body);
          assert TextMessages(messages[..i + 1]) == inbound + [x];
          RunAppend(old(Model()), inbound, x);
          HandleVotingConversation(message.from, message.body);
        } else {
          assert TextMessages(messages[..i + 1]) == inbound;
        }
      }
      assert messages[..|messages|] == messages;
    }
  }
}
