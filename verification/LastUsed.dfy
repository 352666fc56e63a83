/** What the client shows of login rows and of keys, and when a key was last used. */
module LastUsed {
  import opened Common

  /** The fields of a login row that the client reads; a missing or null field is `None`. */
  datatype Row = Row(
    ts: int,
    eventType: Option<string>,
    username: Option<string>,
    sourceIp: Option<string>,
    keyLabel: Option<string>,
    detail: Option<string>)

  datatype LoginEvent = LoginEvent(ts: int, user: string, ip: string, result: string, keyLabel: string, detail: string)

  /** Python's `value or default`. */
  function OrElse(value: Option<string>, default: string): string {
    if value.None? || value.value == "" then default else value.value
  }

  function ResultOf(eventType: Option<string>): string {
    if eventType == Some("accepted_publickey") || eventType == Some("accepted_other") then "success"
    else if eventType == Some("failed_publickey") || eventType == Some("failed_other") then "failure"
    else if eventType == Some("invalid_user") then "invalid_user"
    else "disconnected"
  }

  function DetailOf(result: string, detail: string): string {
    if detail != "" then detail
    else if result == "failure" then "tentativa de login falhou"
    else if result == "invalid_user" then "usu\U{00E1}rio inexistente"
    else ""
  }

  function FromRow(row: Row): LoginEvent {
    var result := ResultOf(row.eventType);
    LoginEvent(row.ts, OrElse(row.username, "?"), OrElse(row.sourceIp, "?"), result, OrElse(row.keyLabel, ""),
               DetailOf(result, OrElse(row.detail, "")))
  }

  /** What is shown of fields that are missing or empty. */
  lemma ShownFields(row: Row)
    ensures FromRow(row).ts == row.ts
    ensures row.username in {None, Some("")} ==> FromRow(row).user == "?"
    ensures row.username.Some? && row.username.value != "" ==> FromRow(row).user == row.username.value
    ensures row.sourceIp in {None, Some("")} ==> FromRow(row).ip == "?"
    ensures row.sourceIp.Some? && row.sourceIp.value != "" ==> FromRow(row).ip == row.sourceIp.value
    ensures FromRow(row).keyLabel == if row.keyLabel.Some? then row.keyLabel.value else ""
    ensures row.detail.Some? && row.detail.value != "" ==> FromRow(row).detail == row.detail.value
  {
  }

  /** How a login ended, for each type of event. */
  lemma ShownResult(row: Row)
    ensures row.eventType in {Some("accepted_publickey"), Some("accepted_other")} ==> FromRow(row).result == "success"
    ensures row.eventType in {Some("failed_publickey"), Some("failed_other")} ==> FromRow(row).result == "failure"
    ensures row.eventType == Some("invalid_user") ==> FromRow(row).result == "invalid_user"
    ensures row.eventType in {Some("connection_closed"), Some("disconnected"), None} ==>
      FromRow(row).result == "disconnected"
  {
  }

  /** The detail that stands in for a missing one. */
  lemma ShownDetail(row: Row)
    requires row.detail in {None, Some("")}
    ensures row.eventType in {Some("failed_publickey"), Some("failed_other")} ==>
      FromRow(row).detail == "tentativa de login falhou"
    ensures row.eventType == Some("invalid_user") ==> FromRow(row).detail == "usu\U{00E1}rio inexistente"
    ensures row.eventType in {Some("accepted_publickey"), Some("accepted_other")} ==> FromRow(row).detail == ""
    ensures row.eventType in {Some("connection_closed"), Some("disconnected"), None} ==> FromRow(row).detail == ""
  {
  }

  datatype RawKey = RawKey(keyType: string, fingerprint: string, comment: string)

  datatype SshKey = SshKey(name: string, keyType: string, fingerprint: string, lastUsed: Option<int>)

  function LastChars(s: string, n: nat): string { if |s| <= n then s else s[|s| - n..] }

  function DisplayLabel(key: RawKey): string {
    if key.comment != "" then key.comment else "chave-" + LastChars(key.fingerprint, 8)
  }

  /** A key without a comment is shown by the last eight characters of its fingerprint. */
  lemma ShownLabel(keyType: string, front: string, last8: string)
    requires |last8| == 8
    ensures DisplayLabel(RawKey(keyType, front + last8, "")) == "chave-" + last8
  {
    if front == "" {
      assert front + last8 == last8;
    } else {
      assert (front + last8)[|front|..] == last8;
    }
  }

  predicate Uses(e: LoginEvent, name: string) { e.result == "success" && e.keyLabel != "" && e.keyLabel == name }

  /** The time of the first event of the list that uses the key label. */
  function FirstTime(history: seq<LoginEvent>, name: string): Option<int> {
    if history == [] then None
    else
      var n := |history| - 1;
      if FirstTime(history[..n], name).Some? then FirstTime(history[..n], name)
      else if Uses(history[n], name) then Some(history[n].ts)
      else None
  }

  function ShownKey(history: seq<LoginEvent>, key: RawKey): SshKey {
    SshKey(DisplayLabel(key), key.keyType, key.fingerprint, FirstTime(history, DisplayLabel(key)))
  }

  /** The table of `setdefault` calls holds what `FirstTime` says, for every label. */
  ghost predicate IsTable(table: map<string, int>, history: seq<LoginEvent>) {
    forall name: string :: (if name in table then Some(table[name]) else None) == FirstTime(history, name)
  }

  /** `_rebuild_keys`. */
  method Rebuild(history: seq<LoginEvent>, rawKeys: seq<RawKey>) returns (keys: seq<SshKey>)
    ensures |keys| == |rawKeys|
    ensures forall i :: 0 <= i < |keys| ==> keys[i] == ShownKey(history, rawKeys[i])
  {
    var lastUsed: map<string, int> := map[];
    for i := 0 to |history|
      invariant IsTable(lastUsed, history[..i])
    {
      assert history[..i + 1][..i] == history[..i];
      assert (if history[i].keyLabel in lastUsed then Some(lastUsed[history[i].keyLabel]) else None)
          == FirstTime(history[..i], history[i].keyLabel);
      if history[i].result == "success" && history[i].keyLabel != "" && history[i].keyLabel !in lastUsed {
        lastUsed := lastUsed[history[i].keyLabel := history[i].ts];
      }
    }
    assert history[..|history|] == history;
    keys := [];
    for i := 0 to |rawKeys|
      invariant |keys| == i
      invariant forall j :: 0 <= j < i ==> keys[j] == ShownKey(history, rawKeys[j])
    {
      var name := DisplayLabel(rawKeys[i]);
      var time := if name in lastUsed then Some(lastUsed[name]) else None;
      keys := keys + [SshKey(name, rawKeys[i].keyType, rawKeys[i].fingerprint, time)];
    }
  }

  lemma {:induction false} NoUseNoTime(history: seq<LoginEvent>, name: string)
    requires forall e :: e in history ==> !Uses(e, name)
    ensures FirstTime(history, name) == None
  {
    if history != [] {
      assert history[|history| - 1] in history;
      NoUseNoTime(history[..|history| - 1], name);
    }
  }

  predicate NewestFirst(history: seq<LoginEvent>) {
    forall i, j :: 0 <= i < j < |history| ==> history[i].ts >= history[j].ts
  }

  lemma NewestFirstInit(history: seq<LoginEvent>)
    requires NewestFirst(history) && history != []
    ensures NewestFirst(history[..|history| - 1])
    ensures forall e :: e in history[..|history| - 1] ==> e.ts >= history[|history| - 1].ts
  {
  }

  /** In a list that is newest first it is the greatest time of a use, or none if there is no use. */
  lemma {:induction false} FirstTimeIsGreatest(history: seq<LoginEvent>, name: string)
    requires NewestFirst(history)
    ensures FirstTime(history, name).None? <==> forall e :: e in history ==> !Uses(e, name)
    ensures FirstTime(history, name).Some? ==>
      exists e :: e in history && Uses(e, name) && e.ts == FirstTime(history, name).value
    ensures FirstTime(history, name).Some? ==>
      forall e :: e in history && Uses(e, name) ==> e.ts <= FirstTime(history, name).value
  {
    if history != [] {
      var init, last := history[..|history| - 1], history[|history| - 1];
      NewestFirstInit(history);
      FirstTimeIsGreatest(init, name);
      assert history == init + [last];
    }
  }

  lemma {:induction false} FirstTimeCons(e: LoginEvent, history: seq<LoginEvent>, name: string)
    ensures FirstTime([e] + history, name) == if Uses(e, name) then Some(e.ts) else FirstTime(history, name)
  {
    var n := |history|;
    if n > 0 {
      assert ([e] + history)[..n] == [e] + history[..n - 1];
      FirstTimeCons(e, history[..n - 1], name);
    } else {
      assert ([e] + history)[..0] == [];
    }
  }

  lemma PushKeepsNewestFirst(e: LoginEvent, history: seq<LoginEvent>, n: nat)
    requires NewestFirst(history) && (history != [] ==> e.ts >= history[0].ts)
    ensures NewestFirst(Take([e] + history, n))
  {
  }
}
