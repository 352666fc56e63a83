/** From a message of sshd to the line that the client shows of it. */
module ShownLogins {
  import opened Common
  import opened SshdMessages
  import opened SshdRoundTrip
  import L = LastUsed

  /** What the client reads of the row that the ingest writes for an event. */
  function RowOf(ts: int, e: Event, keyLabel: Option<string>): L.Row {
    L.Row(ts, Some(e.eventType), e.username, e.sourceIp, keyLabel, Some(e.raw))
  }

  function ShownResult(f: Form): string {
    match f
    case Accepted(_, _) => "success"
    case Failed(_, _, _) => "failure"
    case InvalidUser(_) => "invalid_user"
    case ClosedInvalid => "disconnected"
    case ClosedAuth => "disconnected"
    case Disconnected => "disconnected"
  }

  lemma PrintedIsNotEmpty(m: Message)
    ensures Print(m) != ""
  {
    assert WordsOf(m)[0] == Head(m)[0];
  }

  lemma ResultIsShown(ts: int, f: Form, e: Event, keyLabel: Option<string>)
    requires e.eventType == TypeName(f)
    ensures L.FromRow(RowOf(ts, e, keyLabel)).result == ShownResult(f)
  {
    L.ShownResult(RowOf(ts, e, keyLabel));
  }

  lemma EventIsShown(ts: int, f: Form, e: Event, user: string, ip: string, keyLabel: Option<string>)
    requires e.eventType == TypeName(f) && e.username == Some(user) && e.sourceIp == Some(ip)
    requires user != "" && ip != "" && e.raw != ""
    ensures L.FromRow(RowOf(ts, e, keyLabel))
         == L.LoginEvent(ts, user, ip, ShownResult(f), if keyLabel.Some? then keyLabel.value else "", e.raw)
  {
    ResultIsShown(ts, f, e, keyLabel);
    L.ShownFields(RowOf(ts, e, keyLabel));
  }

  /** Every message of sshd is shown with its user, its address, its text and how it ended. */
  lemma LoginIsShown(ts: int, m: Message, keyLabel: Option<string>)
    requires IsMessage(m)
    ensures ParseSshdMessage(Print(m)).Some?
    ensures L.FromRow(RowOf(ts, ParseSshdMessage(Print(m)).value, keyLabel))
         == L.LoginEvent(ts, m.user, m.ip, ShownResult(m.form), if keyLabel.Some? then keyLabel.value else "", Print(m))
  {
    ParsePrint(m);
    PrintedIsNotEmpty(m);
    EventIsShown(ts, m.form, ParseSshdMessage(Print(m)).value, m.user, m.ip, keyLabel);
  }
}
