/**
 * Exactly which messages are recognized, and what the event then says: those that hold one of
 * the printed forms, however the message goes on before and behind it.
 */
module SshdSound {
  import opened Common
  import opened Regex
  import opened Words
  import opened SshdMessages
  import opened SshdRoundTrip

  // -- the forms as texts -----------------------------------------------------------------------

  function KeyText(key: Option<Key>): string {
    if key.Some? then ": " + (key.value.keyType + (" SHA256:" + key.value.digest)) else ""
  }

  function FromPort(user: string, ip: string, port: string, rest: string): string {
    user + (" from " + (ip + (" port " + (port + rest))))
  }

  function DirectPort(user: string, ip: string, port: string, rest: string): string {
    user + (" " + (ip + (" port " + (port + rest))))
  }

  /** A form with its fields, and what comes behind. */
  function Shown(f: Form, user: string, ip: string, port: string, rest: string): string {
    match f
    case Accepted(how, key) =>
      "Accepted " + (MethodText(how) + (" for " + FromPort(user, ip, port, " ssh2" + (KeyText(key) + rest))))
    case Failed(how, invalid, key) =>
      "Failed " + (MethodText(how) + (" for " +
        ((if invalid then "invalid user " else "") + FromPort(user, ip, port, " ssh2" + (KeyText(key) + rest)))))
    case InvalidUser(withPort) =>
      "Invalid user " + (user + (" from " + (ip + if withPort then " port " + (port + rest) else rest)))
    case ClosedInvalid => "Connection closed by invalid user " + DirectPort(user, ip, port, rest)
    case ClosedAuth => "Connection closed by authenticating user " + DirectPort(user, ip, port, rest)
    case Disconnected => "Disconnected from user " + DirectPort(user, ip, port, rest)
  }

  predicate AreFields(f: Form, user: string, ip: string, port: string) {
    && IsForm(f) && IsWord(user)
    && ip != "" && (forall i :: 0 <= i < |ip| ==> ip[i] in "0123456789abcdefABCDEF:.")
    && port != "" && (forall i :: 0 <= i < |port| ==> port[i] in "0123456789")
  }

  /** What an event says of these fields. */
  function EventFor(f: Form, user: string, ip: string, port: string, raw: string): Event {
    var key := KeyOf(f);
    Event(TypeName(f), Some(user), Some(ip), if f == InvalidUser(false) then None else Some(DecimalValue(port)),
          if key.Some? then Some(key.value.keyType) else None,
          if key.Some? then Some("SHA256:" + key.value.digest) else None,
          raw)
  }

  // -- the classes, character by character ---------------------------------------------------------

  lemma DigitChars(c: char)
    ensures In(c, Digit) <==> c in "0123456789"
  {
    var s := "0123456789";
    assert s[0] == '0' && s[1] == '1' && s[2] == '2' && s[3] == '3' && s[4] == '4';
    assert s[5] == '5' && s[6] == '6' && s[7] == '7' && s[8] == '8' && s[9] == '9';
  }

  lemma AddressChars(c: char)
    ensures In(c, Address) <==> c in "0123456789abcdefABCDEF:."
  {
    var s := "0123456789abcdefABCDEF:.";
    assert s[0] == '0' && s[1] == '1' && s[2] == '2' && s[3] == '3' && s[4] == '4';
    assert s[5] == '5' && s[6] == '6' && s[7] == '7' && s[8] == '8' && s[9] == '9';
    assert s[10] == 'a' && s[11] == 'b' && s[12] == 'c' && s[13] == 'd' && s[14] == 'e' && s[15] == 'f';
    assert s[16] == 'A' && s[17] == 'B' && s[18] == 'C' && s[19] == 'D' && s[20] == 'E' && s[21] == 'F';
    assert s[22] == ':' && s[23] == '.';
  }

  lemma FieldClasses(ip: string, port: string)
    ensures AllIn(ip, Address) <==> forall i :: 0 <= i < |ip| ==> ip[i] in "0123456789abcdefABCDEF:."
    ensures AllIn(port, Digit) <==> forall i :: 0 <= i < |port| ==> port[i] in "0123456789"
  {
    forall i | 0 <= i < |ip| ensures In(ip[i], Address) <==> ip[i] in "0123456789abcdefABCDEF:." {
      AddressChars(ip[i]);
    }
    forall i | 0 <= i < |port| ensures In(port[i], Digit) <==> port[i] in "0123456789" {
      DigitChars(port[i]);
    }
  }

  // -- a match has read a form -----------------------------------------------------------------------

  lemma WordSplits(text: string, next: Re, s: string, caps: Captures) returns (rest: string)
    requires Match(Word(text, next), s, caps).Some?
    ensures s == text + (" " + rest) && Match(Word(text, next), s, caps) == Match(next, rest, caps)
  {
    var behind := LitSplits(Word(text, next), s, caps);
    rest := LitSplits(Lit(" ", next), behind, caps);
  }

  lemma Glue(a: string, b: string, rest: string)
    ensures a + (b + rest) == (a + b) + rest
  {
  }

  lemma Glue3(a: string, b: string, c: string, rest: string)
    ensures a + (b + (c + rest)) == (a + (b + c)) + rest
  {
  }

  lemma PortSplits(next: Re, s: string, caps: Captures) returns (port: string, rest: string)
    requires Match(Lit(" ", Word("port", Port(next))), s, caps).Some?
    ensures s == " port " + (port + rest) && port != "" && AllIn(port, Digit)
    ensures Match(Lit(" ", Word("port", Port(next))), s, caps) == Match(next, rest, caps["port" := port])
  {
    var a := LitSplits(Lit(" ", Word("port", Port(next))), s, caps);
    var b := WordSplits("port", Port(next), a, caps);
    port, rest := RunSplits(Port(next), b, caps);
    assert "" + (port + rest) == port + rest && "" + port == port;
    Glue3(" ", "port", " ", port + rest);
    assert " " + ("port" + " ") == " port ";
  }

  lemma RunSpaceSplits(re: Re, next: Re, s: string, caps: Captures) returns (w: string, rest: string)
    requires re.Run? && re.prefix == "" && re.hi.None? && re.next == Lit(" ", next) && Match(re, s, caps).Some?
    ensures s == w + (" " + rest) && AllIn(w, re.cls) && re.lo <= |w|
    ensures Match(re, s, caps) == Match(next, rest, caps[re.name := w])
  {
    var behind;
    w, behind := RunSplits(re, s, caps);
    assert "" + (w + behind) == w + behind && "" + w == w;
    rest := LitSplits(re.next, behind, caps[re.name := w]);
  }

  /** `user ip port port` */
  lemma DirectSplits(next: Re, s: string, caps: Captures) returns (user: string, ip: string, port: string, rest: string)
    requires Match(UserIpPort(next), s, caps).Some?
    ensures s == DirectPort(user, ip, port, rest)
    ensures IsWord(user) && ip != "" && AllIn(ip, Address) && port != "" && AllIn(port, Digit)
    ensures Match(UserIpPort(next), s, caps) == Match(next, rest, caps["user" := user]["ip" := ip]["port" := port])
  {
    var behind;
    var last := Lit(" ", Word("port", Port(next)));
    user, behind := RunSpaceSplits(UserIpPort(next), Ip(last), s, caps);
    ip, port, rest := IpPortSplits(next, behind, caps["user" := user]);
  }

  lemma IpPortSplits(next: Re, s: string, caps: Captures) returns (ip: string, port: string, rest: string)
    requires Match(Ip(Lit(" ", Word("port", Port(next)))), s, caps).Some?
    ensures s == ip + (" port " + (port + rest))
    ensures ip != "" && AllIn(ip, Address) && port != "" && AllIn(port, Digit)
    ensures Match(Ip(Lit(" ", Word("port", Port(next)))), s, caps)
         == Match(next, rest, caps["ip" := ip]["port" := port])
  {
    var last := Lit(" ", Word("port", Port(next)));
    var behind;
    ip, behind := RunSplits(Ip(last), s, caps);
    assert "" + (ip + behind) == ip + behind && "" + ip == ip;
    port, rest := PortSplits(next, behind, caps["ip" := ip]);
  }

  /** `user from ip port port` */
  lemma FromSplits(next: Re, s: string, caps: Captures) returns (user: string, ip: string, port: string, rest: string)
    requires Match(UserFromIpPort(next), s, caps).Some?
    ensures s == FromPort(user, ip, port, rest)
    ensures IsWord(user) && ip != "" && AllIn(ip, Address) && port != "" && AllIn(port, Digit)
    ensures Match(UserFromIpPort(next), s, caps)
         == Match(next, rest, caps["user" := user]["ip" := ip]["port" := port])
  {
    var ipRe := Ip(Lit(" ", Word("port", Port(next))));
    var behind, after;
    user, behind := RunSpaceSplits(UserFromIpPort(next), Word("from", ipRe), s, caps);
    after := WordSplits("from", ipRe, behind, caps["user" := user]);
    ip, port, rest := IpPortSplits(next, after, caps["user" := user]);
    FromJoined(after);
  }

  lemma KeySplits(s: string, caps: Captures) returns (key: Key, rest: string)
    requires Match(KEY_PART, s, caps).Some?
    ensures s == KeyText(Some(key)) + rest && IsKey(Some(key))
    ensures Match(KEY_PART, s, caps) == Some(WithKey(Some(key), caps))
  {
    var fingerprint := Run("fingerprint", "SHA256:", NonSpace, 1, None, Accept);
    var keyType := Run("keytype", "", NonSpace, 1, None, Lit(" ", fingerprint));
    var a := WordSplits(":", keyType, s, caps);
    var kind, b := RunSpaceSplits(keyType, fingerprint, a, caps);
    var digest;
    digest, rest := RunSplits(fingerprint, b, caps["keytype" := kind]);
    key := Key(kind, digest);
    KeyGlue(kind, digest, rest);
  }

  lemma KeyGlue(kind: string, digest: string, rest: string)
    ensures ":" + (" " + (kind + (" " + ("SHA256:" + (digest + rest))))) == KeyText(Some(Key(kind, digest))) + rest
  {
    assert ":" + " " == ": " && " " + "SHA256:" == " SHA256:";
    Glue(":", " ", kind + (" " + ("SHA256:" + (digest + rest))));
    Glue(" ", "SHA256:", digest + rest);
    Glue(" SHA256:", digest, rest);
    Glue(kind, " SHA256:" + digest, rest);
    Glue(": ", kind + (" SHA256:" + digest), rest);
  }

  lemma Ssh2Splits(s: string, caps: Captures) returns (key: Option<Key>, rest: string)
    requires Match(SSH2, s, caps).Some?
    ensures s == " ssh2" + (KeyText(key) + rest) && IsKey(key)
    ensures Match(SSH2, s, caps) == Some(WithKey(key, caps))
  {
    var a := LitSplits(SSH2, s, caps);
    var b := LitSplits(Lit("ssh2", Either(KEY_PART, Accept)), a, caps);
    Glue(" ", "ssh2", b);
    assert " " + "ssh2" == " ssh2";
    if Match(KEY_PART, b, caps).Some? {
      var k;
      k, rest := KeySplits(b, caps);
      key := Some(k);
    } else {
      key, rest := None, b;
      assert "" + rest == rest;
    }
  }

  lemma MethodOf(text: string) returns (how: Method)
    requires text in METHODS
    ensures MethodText(how) == text
  {
    how := if text == "publickey" then PublicKey else if text == "password" then Password else KeyboardInteractive;
  }

  lemma MethodSplits(first: string, next: Re, s: string) returns (how: Method, rest: string)
    requires Match(MethodFor(first, next), s, map[]).Some?
    ensures s == first + (" " + (MethodText(how) + (" for " + rest)))
    ensures Match(MethodFor(first, next), s, map[]) == Match(next, rest, map["method" := MethodText(how)])
  {
    var oneOf := OneOf("method", METHODS, Lit(" ", Word("for", next)));
    var a := WordSplits(first, oneOf, s, map[]);
    var option, b := OneOfSplits(oneOf, a, map[], 0);
    how := MethodOf(option);
    var caps: Captures := map["method" := option];
    var c := LitSplits(oneOf.next, b, caps);
    rest := WordSplits("for", next, c, caps);
    Glue3(" ", "for", " ", rest);
    assert " " + ("for" + " ") == " for ";
  }

  /** The captures say what the form says. */
  predicate Says(caps: Captures, f: Form, user: string, ip: string, port: string) {
    && Group(caps, "user") == Some(user) && Group(caps, "ip") == Some(ip)
    && Group(caps, "port") == (if f == InvalidUser(false) then None else Some(port))
    && Group(caps, "keytype") == (if KeyOf(f).Some? then Some(KeyOf(f).value.keyType) else None)
    && Group(caps, "fingerprint") == (if KeyOf(f).Some? then Some("SHA256:" + KeyOf(f).value.digest) else None)
    && (f.Accepted? ==> Group(caps, "method") == Some(MethodText(f.how)))
    && (f.Failed? ==> Group(caps, "method") == Some(MethodText(f.how)))
  }

  lemma SessionSplits(s: string, caps: Captures)
    returns (key: Option<Key>, user: string, ip: string, port: string, rest: string)
    requires Match(UserFromIpPort(SSH2), s, caps).Some?
    ensures s == FromPort(user, ip, port, " ssh2" + (KeyText(key) + rest)) && IsKey(key)
    ensures IsWord(user) && ip != "" && AllIn(ip, Address) && port != "" && AllIn(port, Digit)
    ensures Match(UserFromIpPort(SSH2), s, caps)
         == Some(WithKey(key, caps["user" := user]["ip" := ip]["port" := port]))
  {
    var behind;
    user, ip, port, behind := FromSplits(SSH2, s, caps);
    key, rest := Ssh2Splits(behind, caps["user" := user]["ip" := ip]["port" := port]);
  }

  lemma AcceptedSplits(s: string) returns (f: Form, user: string, ip: string, port: string, rest: string)
    requires Match(ACCEPTED, s, map[]).Some?
    ensures f.Accepted? && s == Shown(f, user, ip, port, rest) && AreFields(f, user, ip, port)
    ensures Says(Match(ACCEPTED, s, map[]).value, f, user, ip, port)
  {
    var how, behind := MethodSplits("Accepted", UserFromIpPort(SSH2), s);
    var key;
    key, user, ip, port, rest := SessionSplits(behind, map["method" := MethodText(how)]);
    f := Accepted(how, key);
    FieldClasses(ip, port);
    Joined("Accepted", " ", "Accepted ", MethodText(how) + (" for " + behind));
    SessionSays(f, key, map["method" := MethodText(how)], user, ip, port);
  }

  lemma Joined(a: string, b: string, ab: string, rest: string)
    requires a + b == ab
    ensures a + (b + rest) == ab + rest
  {
    Glue(a, b, rest);
  }

  lemma SessionSays(f: Form, key: Option<Key>, caps: Captures, user: string, ip: string, port: string)
    requires (f.Accepted? || f.Failed?) && key == f.key && caps == map["method" := MethodText(f.how)]
    ensures Says(WithKey(key, caps["user" := user]["ip" := ip]["port" := port]), f, user, ip, port)
  {
    FiveNames();
  }

  lemma FiveNames()
    ensures "user" != "ip" && "user" != "port" && "user" != "keytype" && "user" != "fingerprint" && "user" != "method"
    ensures "ip" != "port" && "ip" != "keytype" && "ip" != "fingerprint" && "ip" != "method"
    ensures "port" != "keytype" && "port" != "fingerprint" && "port" != "method"
    ensures "keytype" != "fingerprint" && "keytype" != "method" && "fingerprint" != "method"
  {
    assert "user"[0] != "port"[0] && "keytype"[0] != "method"[0];
  }

  lemma FailedSplits(s: string) returns (f: Form, user: string, ip: string, port: string, rest: string)
    requires Match(FAILED, s, map[]).Some?
    ensures f.Failed? && s == Shown(f, user, ip, port, rest) && AreFields(f, user, ip, port)
    ensures Says(Match(FAILED, s, map[]).value, f, user, ip, port)
  {
    var how, behind := MethodSplits("Failed", FAILED_USER, s);
    var caps: Captures := map["method" := MethodText(how)];
    var invalid, key, session;
    invalid, session := InvalidSplits(behind, caps);
    key, user, ip, port, rest := SessionSplits(session, caps);
    f := Failed(how, invalid, key);
    FieldClasses(ip, port);
    Joined("Failed", " ", "Failed ", MethodText(how) + (" for " + behind));
    SessionSays(f, key, caps, user, ip, port);
  }

  lemma InvalidSplits(s: string, caps: Captures) returns (invalid: bool, rest: string)
    requires Match(FAILED_USER, s, caps).Some?
    ensures s == (if invalid then "invalid user " else "") + rest
    ensures Match(FAILED_USER, s, caps) == Match(UserFromIpPort(SSH2), rest, caps)
  {
    var first := Word("invalid", Word("user", UserFromIpPort(SSH2)));
    if Match(first, s, caps).Some? {
      var a := WordSplits("invalid", Word("user", UserFromIpPort(SSH2)), s, caps);
      rest := WordSplits("user", UserFromIpPort(SSH2), a, caps);
      invalid := true;
      TwoJoined("invalid", "user", "invalid user ", rest);
    } else {
      invalid, rest := false, s;
      assert "" + rest == rest;
    }
  }

  lemma InvalidUserSplits(s: string) returns (f: Form, user: string, ip: string, port: string, rest: string)
    requires Match(INVALID_USER, s, map[]).Some?
    ensures f.InvalidUser? && s == Shown(f, user, ip, port, rest) && AreFields(f, user, ip, port)
    ensures Says(Match(INVALID_USER, s, map[]).value, f, user, ip, port)
  {
    var userRe := User(Lit(" ", Word("from", IP_AND_PORT)));
    var a := WordSplits("Invalid", Word("user", userRe), s, map[]);
    var b := WordSplits("user", userRe, a, map[]);
    InvalidUserText(b);
    var withPort;
    user, ip, withPort, port, rest := UserFromSplits(b);
    f := InvalidUser(withPort);
    FieldClasses(ip, port);
    InvalidUserSays(user, ip, withPort, port);
  }

  lemma InvalidUserText(rest: string)
    ensures "Invalid" + (" " + ("user" + (" " + rest))) == "Invalid user " + rest
  {
    TwoJoined("Invalid", "user", "Invalid user ", rest);
  }

  lemma InvalidUserSays(user: string, ip: string, withPort: bool, port: string)
    ensures Says(if withPort then map["user" := user]["ip" := ip]["port" := port] else map["user" := user]["ip" := ip],
                 InvalidUser(withPort), user, ip, port)
  {
    FiveNames();
  }

  lemma UserFromSplits(s: string) returns (user: string, ip: string, withPort: bool, port: string, rest: string)
    requires Match(User(Lit(" ", Word("from", IP_AND_PORT))), s, map[]).Some?
    ensures s == user + (" from " + (ip + (if withPort then " port " + (port + rest) else rest)))
    ensures IsWord(user) && ip != "" && AllIn(ip, Address) && port != "" && AllIn(port, Digit)
    ensures Match(User(Lit(" ", Word("from", IP_AND_PORT))), s, map[])
         == Some(if withPort then map["user" := user]["ip" := ip]["port" := port] else map["user" := user]["ip" := ip])
  {
    var c, d;
    user, c := RunSpaceSplits(User(Lit(" ", Word("from", IP_AND_PORT))), Word("from", IP_AND_PORT), s, map[]);
    d := WordSplits("from", IP_AND_PORT, c, map["user" := user]);
    ip, withPort, port, rest := MaybePortSplits(d, map["user" := user]);
    FromJoined(d);
  }

  lemma TwoJoined(a: string, b: string, ab: string, rest: string)
    requires a + " " + b + " " == ab
    ensures a + (" " + (b + (" " + rest))) == ab + rest
  {
    Glue(b, " ", rest);
    Glue(" ", b + " ", rest);
    Glue(a, " " + (b + " "), rest);
    assert a + (" " + (b + " ")) == a + " " + b + " ";
  }

  lemma FromJoined(rest: string)
    ensures " " + ("from" + (" " + rest)) == " from " + rest
  {
    Glue3(" ", "from", " ", rest);
    assert " " + ("from" + " ") == " from ";
  }

  lemma MaybePortSplits(s: string, caps: Captures) returns (ip: string, withPort: bool, port: string, rest: string)
    requires Match(IP_AND_PORT, s, caps).Some?
    ensures s == ip + (if withPort then " port " + (port + rest) else rest)
    ensures ip != "" && AllIn(ip, Address) && port != "" && AllIn(port, Digit)
    ensures Match(IP_AND_PORT, s, caps)
         == Some(if withPort then caps["ip" := ip]["port" := port] else caps["ip" := ip])
  {
    var behind;
    ip, behind := RunSplits(IP_AND_PORT, s, caps);
    assert "" + (ip + behind) == ip + behind && "" + ip == ip;
    if Match(Lit(" ", Word("port", Port(Accept))), behind, caps["ip" := ip]).Some? {
      port, rest := PortSplits(Accept, behind, caps["ip" := ip]);
      withPort := true;
    } else {
      withPort, port, rest := false, "0", behind;
    }
  }

  lemma ThreeWordsSplit(a: string, b: string, c: string, abc: string, next: Re, s: string) returns (rest: string)
    requires Match(Word(a, Word(b, Word(c, next))), s, map[]).Some? && abc == a + " " + b + " " + c + " "
    ensures s == abc + rest && Match(Word(a, Word(b, Word(c, next))), s, map[]) == Match(next, rest, map[])
  {
    var x := WordSplits(a, Word(b, Word(c, next)), s, map[]);
    var y := WordSplits(b, Word(c, next), x, map[]);
    rest := WordSplits(c, next, y, map[]);
    ThreeJoined(a, b, c, abc, rest);
  }

  lemma ThreeJoined(a: string, b: string, c: string, abc: string, rest: string)
    requires abc == a + " " + b + " " + c + " "
    ensures a + (" " + (b + (" " + (c + (" " + rest))))) == abc + rest
  {
    TwoJoined(a, b, a + " " + b + " ", c + (" " + rest));
    Glue(c, " ", rest);
    Glue(a + " " + b + " ", c + " ", rest);
    assert a + " " + b + " " + (c + " ") == abc;
  }

  lemma UserSplits(fourth: string, all: string, s: string)
    returns (user: string, ip: string, port: string, rest: string)
    requires Match(Word(fourth, Word("user", UserIpPort(Accept))), s, map[]).Some? && all == fourth + " " + "user" + " "
    ensures s == all + DirectPort(user, ip, port, rest)
    ensures IsWord(user) && ip != "" && AllIn(ip, Address) && port != "" && AllIn(port, Digit)
    ensures Match(Word(fourth, Word("user", UserIpPort(Accept))), s, map[])
         == Some(map["user" := user]["ip" := ip]["port" := port])
  {
    var b := WordSplits(fourth, Word("user", UserIpPort(Accept)), s, map[]);
    var c := WordSplits("user", UserIpPort(Accept), b, map[]);
    user, ip, port, rest := DirectSplits(Accept, c, map[]);
    TwoJoined(fourth, "user", all, c);
  }

  lemma DirectSays(f: Form, user: string, ip: string, port: string)
    requires f.ClosedInvalid? || f.ClosedAuth? || f.Disconnected?
    ensures Says(map["user" := user]["ip" := ip]["port" := port], f, user, ip, port)
  {
    FiveNames();
  }

  lemma ClosedSplits(f: Form, fourth: string, s: string) returns (user: string, ip: string, port: string, rest: string)
    requires (f.ClosedInvalid? && fourth == "invalid") || (f.ClosedAuth? && fourth == "authenticating")
    requires Match(Word("Connection", Word("closed", Word("by", Word(fourth, Word("user", UserIpPort(Accept)))))),
                   s, map[]).Some?
    ensures s == ("Connection closed by " + (fourth + " " + "user" + " ")) + DirectPort(user, ip, port, rest)
    ensures AreFields(f, user, ip, port)
    ensures Says(Match(Word("Connection", Word("closed", Word("by", Word(fourth, Word("user", UserIpPort(Accept)))))),
                       s, map[]).value, f, user, ip, port)
  {
    var last := Word(fourth, Word("user", UserIpPort(Accept)));
    ClosedBy();
    var a := ThreeWordsSplit("Connection", "closed", "by", "Connection closed by ", last, s);
    user, ip, port, rest := UserSplits(fourth, fourth + " " + "user" + " ", a);
    Glue("Connection closed by ", fourth + " " + "user" + " ", DirectPort(user, ip, port, rest));
    FieldClasses(ip, port);
    DirectSays(f, user, ip, port);
  }

  lemma ClosedBy()
    ensures "Connection" + " " + "closed" + " " + "by" + " " == "Connection closed by "
    ensures "Connection closed by " + ("invalid" + " " + "user" + " ") == "Connection closed by invalid user "
    ensures "Connection closed by " + ("authenticating" + " " + "user" + " ")
         == "Connection closed by authenticating user "
  {
  }

  lemma DisconnectedFrom()
    ensures "Disconnected" + " " + "from" + " " + "user" + " " == "Disconnected from user "
  {
  }

  lemma DisconnectedSplits(s: string) returns (user: string, ip: string, port: string, rest: string)
    requires Match(DISCONNECTED, s, map[]).Some?
    ensures s == "Disconnected from user " + DirectPort(user, ip, port, rest)
    ensures AreFields(Disconnected, user, ip, port)
    ensures Says(Match(DISCONNECTED, s, map[]).value, Disconnected, user, ip, port)
  {
    DisconnectedFrom();
    var a := ThreeWordsSplit("Disconnected", "from", "user", "Disconnected from user ", UserIpPort(Accept), s);
    user, ip, port, rest := DirectSplits(Accept, a, map[]);
    FieldClasses(ip, port);
    DirectSays(Disconnected, user, ip, port);
  }

  lemma ClosingSplits(f: Form, s: string) returns (user: string, ip: string, port: string, rest: string)
    requires (f.ClosedInvalid? || f.ClosedAuth? || f.Disconnected?) && Match(OwnPattern(f), s, map[]).Some?
    ensures s == Shown(f, user, ip, port, rest) && AreFields(f, user, ip, port)
    ensures Says(Match(OwnPattern(f), s, map[]).value, f, user, ip, port)
  {
    ClosedBy();
    match f
    case ClosedInvalid => user, ip, port, rest := ClosedSplits(f, "invalid", s);
    case ClosedAuth => user, ip, port, rest := ClosedSplits(f, "authenticating", s);
    case Disconnected => user, ip, port, rest := DisconnectedSplits(s);
  }

  // -- a form is matched, whatever comes behind it ---------------------------------------------------

  lemma WordFits(text: string, next: Re, rest: string)
    requires Fits(next, rest)
    ensures Fits(Word(text, next), text + (" " + rest))
  {
    LitFits(" ", next, rest);
    LitFits(text, Lit(" ", next), " " + rest);
  }

  lemma PlainRunFits(re: Re, w: string, rest: string)
    requires re.Run? && re.prefix == "" && re.hi.None? && AllIn(w, re.cls) && re.lo <= |w| && Fits(re.next, rest)
    ensures Fits(re, w + rest)
  {
    RunFits(re, w, rest);
    assert "" + (w + rest) == w + rest;
  }

  lemma PortFits(next: Re, port: string, rest: string)
    requires port != "" && AllIn(port, Digit) && Fits(next, rest)
    ensures Fits(Lit(" ", Word("port", Port(next))), " port " + (port + rest))
  {
    PlainRunFits(Port(next), port, rest);
    WordFits("port", Port(next), port + rest);
    LitFits(" ", Word("port", Port(next)), "port" + (" " + (port + rest)));
    Glue3(" ", "port", " ", port + rest);
    assert " " + ("port" + " ") == " port ";
  }

  lemma IpPortFits(next: Re, ip: string, port: string, rest: string)
    requires ip != "" && AllIn(ip, Address) && port != "" && AllIn(port, Digit) && Fits(next, rest)
    ensures Fits(Ip(Lit(" ", Word("port", Port(next)))), ip + (" port " + (port + rest)))
  {
    PortFits(next, port, rest);
    PlainRunFits(Ip(Lit(" ", Word("port", Port(next)))), ip, " port " + (port + rest));
  }

  lemma DirectFits(next: Re, user: string, ip: string, port: string, rest: string)
    requires IsWord(user) && ip != "" && AllIn(ip, Address) && port != "" && AllIn(port, Digit) && Fits(next, rest)
    ensures Fits(UserIpPort(next), DirectPort(user, ip, port, rest))
  {
    var behind := ip + (" port " + (port + rest));
    IpPortFits(next, ip, port, rest);
    LitFits(" ", Ip(Lit(" ", Word("port", Port(next)))), behind);
    PlainRunFits(UserIpPort(next), user, " " + behind);
  }

  lemma FromFits(next: Re, user: string, ip: string, port: string, rest: string)
    requires IsWord(user) && ip != "" && AllIn(ip, Address) && port != "" && AllIn(port, Digit) && Fits(next, rest)
    ensures Fits(UserFromIpPort(next), FromPort(user, ip, port, rest))
  {
    var ipRe, behind := Ip(Lit(" ", Word("port", Port(next)))), ip + (" port " + (port + rest));
    IpPortFits(next, ip, port, rest);
    WordFits("from", ipRe, behind);
    LitFits(" ", Word("from", ipRe), "from" + (" " + behind));
    PlainRunFits(UserFromIpPort(next), user, " " + ("from" + (" " + behind)));
    FromJoined(behind);
  }

  lemma Ssh2Fits(rest: string)
    ensures Fits(SSH2, " ssh2" + rest)
  {
    LitFits("ssh2", Either(KEY_PART, Accept), rest);
    LitFits(" ", Lit("ssh2", Either(KEY_PART, Accept)), "ssh2" + rest);
    Glue(" ", "ssh2", rest);
    assert " " + "ssh2" == " ssh2";
  }

  lemma SessionFits(user: string, ip: string, port: string, rest: string)
    requires IsWord(user) && ip != "" && AllIn(ip, Address) && port != "" && AllIn(port, Digit)
    ensures Fits(UserFromIpPort(SSH2), FromPort(user, ip, port, " ssh2" + rest))
  {
    Ssh2Fits(rest);
    FromFits(SSH2, user, ip, port, " ssh2" + rest);
  }

  lemma MethodFits(first: string, how: Method, next: Re, rest: string)
    requires Fits(next, rest)
    ensures Fits(MethodFor(first, next), first + (" " + (MethodText(how) + (" for " + rest))))
  {
    var oneOf, text := OneOf("method", METHODS, Lit(" ", Word("for", next))), MethodText(how);
    WordFits("for", next, rest);
    LitFits(" ", Word("for", next), "for" + (" " + rest));
    Glue3(" ", "for", " ", rest);
    assert " " + ("for" + " ") == " for ";
    MethodListed(how);
    assert METHODS[0..] == METHODS;
    OneOfFits(oneOf, text, " for " + rest, 0);
    WordFits(first, oneOf, text + (" for " + rest));
  }

  lemma AcceptedFits(how: Method, user: string, ip: string, port: string, rest: string)
    requires IsWord(user) && ip != "" && AllIn(ip, Address) && port != "" && AllIn(port, Digit)
    ensures Fits(ACCEPTED, "Accepted " + (MethodText(how) + (" for " + FromPort(user, ip, port, " ssh2" + rest))))
  {
    var session := FromPort(user, ip, port, " ssh2" + rest);
    SessionFits(user, ip, port, rest);
    MethodFits("Accepted", how, UserFromIpPort(SSH2), session);
    Joined("Accepted", " ", "Accepted ", MethodText(how) + (" for " + session));
  }

  lemma FailedUserFits(invalid: bool, session: string)
    requires Fits(UserFromIpPort(SSH2), session)
    ensures Fits(FAILED_USER, (if invalid then "invalid user " else "") + session)
  {
    if invalid {
      WordFits("user", UserFromIpPort(SSH2), session);
      WordFits("invalid", Word("user", UserFromIpPort(SSH2)), "user" + (" " + session));
      TwoJoined("invalid", "user", "invalid user ", session);
    } else {
      assert "" + session == session;
    }
  }

  lemma FailedFits(how: Method, invalid: bool, user: string, ip: string, port: string, rest: string)
    requires IsWord(user) && ip != "" && AllIn(ip, Address) && port != "" && AllIn(port, Digit)
    ensures Fits(FAILED, "Failed " + (MethodText(how) + (" for " +
                   ((if invalid then "invalid user " else "") + FromPort(user, ip, port, " ssh2" + rest)))))
  {
    var session := FromPort(user, ip, port, " ssh2" + rest);
    SessionFits(user, ip, port, rest);
    FailedUserFits(invalid, session);
    MethodFits("Failed", how, FAILED_USER, (if invalid then "invalid user " else "") + session);
    Joined("Failed", " ", "Failed ",
           MethodText(how) + (" for " + ((if invalid then "invalid user " else "") + session)));
  }

  lemma InvalidUserFits(user: string, ip: string, rest: string)
    requires IsWord(user) && ip != "" && AllIn(ip, Address)
    ensures Fits(INVALID_USER, "Invalid user " + (user + (" from " + (ip + rest))))
  {
    var userRe := User(Lit(" ", Word("from", IP_AND_PORT)));
    PlainRunFits(IP_AND_PORT, ip, rest);
    WordFits("from", IP_AND_PORT, ip + rest);
    LitFits(" ", Word("from", IP_AND_PORT), "from" + (" " + (ip + rest)));
    FromJoined(ip + rest);
    PlainRunFits(userRe, user, " from " + (ip + rest));
    var all := user + (" from " + (ip + rest));
    WordFits("user", userRe, all);
    WordFits("Invalid", Word("user", userRe), "user" + (" " + all));
    InvalidUserText(all);
  }

  lemma ThreeWordsFit(a: string, b: string, c: string, abc: string, next: Re, rest: string)
    requires Fits(next, rest) && abc == a + " " + b + " " + c + " "
    ensures Fits(Word(a, Word(b, Word(c, next))), abc + rest)
  {
    WordFits(c, next, rest);
    WordFits(b, Word(c, next), c + (" " + rest));
    WordFits(a, Word(b, Word(c, next)), b + (" " + (c + (" " + rest))));
    TwoJoined(a, b, a + " " + b + " ", c + (" " + rest));
    Glue(c, " ", rest);
    Glue(a + " " + b + " ", c + " ", rest);
    assert a + " " + b + " " + (c + " ") == abc;
  }

  lemma ClosedFits(fourth: string, user: string, ip: string, port: string, rest: string)
    requires IsWord(user) && ip != "" && AllIn(ip, Address) && port != "" && AllIn(port, Digit)
    ensures Fits(Word("Connection", Word("closed", Word("by", Word(fourth, Word("user", UserIpPort(Accept)))))),
                 ("Connection closed by " + (fourth + " " + "user" + " ")) + DirectPort(user, ip, port, rest))
  {
    var text := DirectPort(user, ip, port, rest);
    DirectFits(Accept, user, ip, port, rest);
    WordFits("user", UserIpPort(Accept), text);
    WordFits(fourth, Word("user", UserIpPort(Accept)), "user" + (" " + text));
    TwoJoined(fourth, "user", fourth + " " + "user" + " ", text);
    ClosedBy();
    ThreeWordsFit("Connection", "closed", "by", "Connection closed by ", Word(fourth, Word("user", UserIpPort(Accept))),
                  (fourth + " " + "user" + " ") + text);
    Glue("Connection closed by ", fourth + " " + "user" + " ", text);
  }

  lemma DisconnectedFits(user: string, ip: string, port: string, rest: string)
    requires IsWord(user) && ip != "" && AllIn(ip, Address) && port != "" && AllIn(port, Digit)
    ensures Fits(DISCONNECTED, "Disconnected from user " + DirectPort(user, ip, port, rest))
  {
    DirectFits(Accept, user, ip, port, rest);
    DisconnectedFrom();
    ThreeWordsFit("Disconnected", "from", "user", "Disconnected from user ", UserIpPort(Accept),
                  DirectPort(user, ip, port, rest));
  }

  lemma ShownFits(f: Form, user: string, ip: string, port: string, rest: string)
    requires AreFields(f, user, ip, port)
    ensures Fits(OwnPattern(f), Shown(f, user, ip, port, rest))
  {
    FieldClasses(ip, port);
    match f
    case Accepted(how, key) => AcceptedFits(how, user, ip, port, KeyText(key) + rest);
    case Failed(how, invalid, key) => FailedFits(how, invalid, user, ip, port, KeyText(key) + rest);
    case InvalidUser(withPort) => InvalidUserFits(user, ip, if withPort then " port " + (port + rest) else rest);
    case ClosedInvalid =>
      ClosedBy();
      ClosedFits("invalid", user, ip, port, rest);
    case ClosedAuth =>
      ClosedBy();
      ClosedFits("authenticating", user, ip, port, rest);
    case Disconnected => DisconnectedFits(user, ip, port, rest);
  }

  // -- the parser, exactly ---------------------------------------------------------------------------

  /** The form stands in the message, and the event is what its fields say. */
  predicate Holds(m: string, i: nat, f: Form, user: string, ip: string, port: string, rest: string) {
    i <= |m| && AreFields(f, user, ip, port) && m[i..] == Shown(f, user, ip, port, rest)
  }

  ghost predicate HoldsForm(m: string) {
    exists i: nat, f, user, ip, port, rest :: Holds(m, i, f, user, ip, port, rest)
  }

  lemma SplitsAny(f0: Form, s: string) returns (f: Form, user: string, ip: string, port: string, rest: string)
    requires Match(OwnPattern(f0), s, map[]).Some?
    ensures OwnPattern(f) == OwnPattern(f0) && s == Shown(f, user, ip, port, rest) && AreFields(f, user, ip, port)
    ensures Says(Match(OwnPattern(f0), s, map[]).value, f, user, ip, port)
  {
    match f0
    case Accepted(_, _) => f, user, ip, port, rest := AcceptedSplits(s);
    case Failed(_, _, _) => f, user, ip, port, rest := FailedSplits(s);
    case InvalidUser(_) => f, user, ip, port, rest := InvalidUserSplits(s);
    case _ =>
      f := f0;
      user, ip, port, rest := ClosingSplits(f, s);
  }

  lemma FoundForm(f0: Form, m: string)
    returns (i: nat, f: Form, user: string, ip: string, port: string, rest: string)
    requires Search(OwnPattern(f0), m).Some?
    ensures OwnPattern(f) == OwnPattern(f0) && Holds(m, i, f, user, ip, port, rest)
    ensures Says(Search(OwnPattern(f0), m).value, f, user, ip, port)
  {
    i := SearchSome(OwnPattern(f0), m);
    f, user, ip, port, rest := SplitsAny(f0, m[i..]);
  }

  lemma ShownIsFound(m: string, i: nat, f: Form, user: string, ip: string, port: string, rest: string)
    requires Holds(m, i, f, user, ip, port, rest)
    ensures Search(OwnPattern(f), m).Some? && Recognize(m).Some?
  {
    ShownFits(f, user, ip, port, rest);
    LaterMatch(OwnPattern(f), m, i);
  }

  /** The type that `parse_sshd_message` gives to what the pattern of a form has found. */
  lemma TypeFits(f: Form, user: string, ip: string, port: string, caps: Captures)
    requires Says(caps, f, user, ip, port)
    ensures f.Accepted? ==> ByMethod(caps, "accepted_publickey", "accepted_other") == TypeName(f)
    ensures f.Failed? ==> ByMethod(caps, "failed_publickey", "failed_other") == TypeName(f)
  {
    assert MethodText(Password)[1] == 'a' && MethodText(KeyboardInteractive)[1] == 'e'
      && MethodText(PublicKey)[1] == 'u';
  }

  lemma RecognizedForm(m: string) returns (i: nat, f: Form, user: string, ip: string, port: string, rest: string)
    requires Recognize(m).Some?
    ensures Holds(m, i, f, user, ip, port, rest)
    ensures Recognize(m).value.0 == TypeName(f) && Says(Recognize(m).value.1, f, user, ip, port)
  {
    var f0 := if Search(ACCEPTED, m).Some? then Accepted(PublicKey, None)
              else if Search(FAILED, m).Some? then Failed(PublicKey, false, None)
              else if Search(INVALID_USER, m).Some? then InvalidUser(true)
              else if Search(CLOSED_INVALID, m).Some? then ClosedInvalid
              else if Search(CLOSED_AUTH, m).Some? then ClosedAuth
              else Disconnected;
    i, f, user, ip, port, rest := FoundForm(f0, m);
    TypeFits(f, user, ip, port, Recognize(m).value.1);
    SameKind(f, f0);
  }

  lemma SameKind(f: Form, g: Form)
    requires OwnPattern(f) == OwnPattern(g)
    ensures f.Accepted? == g.Accepted? && f.Failed? == g.Failed? && f.InvalidUser? == g.InvalidUser?
    ensures f.ClosedInvalid? == g.ClosedInvalid? && f.ClosedAuth? == g.ClosedAuth?
  {
    assert ACCEPTED.text == "Accepted" && FAILED.text == "Failed" && INVALID_USER.text == "Invalid";
    assert CLOSED_INVALID.text == "Connection" && DISCONNECTED.text == "Disconnected";
  }

  /**
   * A message is recognized if and only if it holds one of the forms, and the event then says
   * what the fields of such a form say.
   */
  lemma ParsedExactly(message: string)
    ensures ParseSshdMessage(message).Some? <==> HoldsForm(Strip(message))
    ensures ParseSshdMessage(message).Some? ==>
      exists i: nat, f, user, ip, port, rest :: Holds(Strip(message), i, f, user, ip, port, rest)
        && ParseSshdMessage(message).value == EventFor(f, user, ip, port, Strip(message))
  {
    var m := Strip(message);
    if Recognize(m).Some? {
      var i, f, user, ip, port, rest := RecognizedForm(m);
      assert Holds(m, i, f, user, ip, port, rest);
    } else if HoldsForm(m) {
      var i: nat, f, user, ip, port, rest :| Holds(m, i, f, user, ip, port, rest);
      ShownIsFound(m, i, f, user, ip, port, rest);
    }
  }

  lemma FirstApart(s: string, a: string, x: string, b: string)
    requires s != "" && s[1..] == a + x + b
    ensures s == ([s[0]] + a) + x + b
  {
    assert s == [s[0]] + s[1..];
  }

  lemma LastApart(s: string, a: string, x: string, b: string)
    requires s != "" && s[..|s| - 1] == a + x + b
    ensures s == a + x + (b + [s[|s| - 1]])
  {
    assert s == s[..|s| - 1] + [s[|s| - 1]];
  }

  /** `strip` takes away white space at both ends, and all of it. */
  lemma {:induction false} StripExact(s: string) returns (a: string, b: string)
    ensures s == a + Strip(s) + b && AllIn(a, Space) && AllIn(b, Space)
    ensures Strip(s) != "" ==> !IsSpace(Strip(s)[0]) && !IsSpace(Strip(s)[|Strip(s)| - 1])
  {
    if s == "" {
      a, b := "", "";
    } else if IsSpace(s[0]) {
      a, b := StripExact(s[1..]);
      FirstApart(s, a, Strip(s), b);
      a := [s[0]] + a;
    } else if IsSpace(s[|s| - 1]) {
      a, b := StripExact(s[..|s| - 1]);
      LastApart(s, a, Strip(s), b);
      b := b + [s[|s| - 1]];
    } else {
      a, b := "", "";
    }
  }

  /** Whatever the message is, an event names a user without blanks and an address. */
  lemma EventSound(message: string)
    ensures var e := ParseSshdMessage(message);
      e.Some? ==> && e.value.username.Some? && IsWord(e.value.username.value)
                  && e.value.sourceIp.Some? && e.value.sourceIp.value != "" && AllIn(e.value.sourceIp.value, Address)
  {
    ParsedExactly(message);
    if ParseSshdMessage(message).Some? {
      var i: nat, f, user, ip, port, rest :| Holds(Strip(message), i, f, user, ip, port, rest)
        && ParseSshdMessage(message).value == EventFor(f, user, ip, port, Strip(message));
      FieldClasses(ip, port);
    }
  }

  /** The user name comes back from a printed message if and only if it holds no blank. */
  lemma UserRoundTrip(m: Message)
    requires IsMessage(m.(user := "u"))
    ensures (ParseSshdMessage(Print(m)).Some? && ParseSshdMessage(Print(m)).value.username == Some(m.user))
      <==> IsWord(m.user)
  {
    ParsedExactly(Print(m));
    if IsWord(m.user) {
      ParsePrint(m);
    }
  }
}
