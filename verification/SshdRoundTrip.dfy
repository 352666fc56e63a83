/**
 * Parsing undoes printing for every sshd message form. Forwards: the pattern of a form
 * matches its message and captures its fields. Backwards: no earlier pattern matches at any
 * position of the message, whatever the user name, the address or the key are.
 */
module SshdRoundTrip {
  import opened Common
  import opened Regex
  import opened Words
  import opened SshdMessages

  // -- forwards: the fields are captured ---------------------------------------------

  lemma PortMatches(words: seq<string>, k: nat, next: Re, caps: Captures)
    requires k + 1 < |words| && words[k] == "port" && words[k + 1] != "" && AllIn(words[k + 1], Digit)
    requires Match(next, AfterWord(words, k + 1), caps["port" := words[k + 1]]).Some?
    ensures Match(Word("port", Port(next)), JoinFrom(words, k), caps)
         == Match(next, AfterWord(words, k + 1), caps["port" := words[k + 1]])
  {
    calc {
      Match(Word("port", Port(next)), JoinFrom(words, k), caps);
      { StepWord(words, k, Port(next), caps); }
      Match(Port(next), JoinFrom(words, k + 1), caps);
      { assert words[k + 1] == "" + words[k + 1]; StepRun(words, k + 1, Port(next), words[k + 1], caps); }
      Match(next, AfterWord(words, k + 1), caps["port" := words[k + 1]]);
    }
  }

  predicate FieldsAt(words: seq<string>, user: nat, ip: nat, port: nat) {
    && user < |words| && IsWord(words[user])
    && ip < |words| && words[ip] != "" && AllIn(words[ip], Address)
    && port + 1 < |words| && words[port] == "port" && words[port + 1] != "" && AllIn(words[port + 1], Digit)
  }

  function Fields(words: seq<string>, user: nat, ip: nat, port: nat, caps: Captures): Captures
    requires FieldsAt(words, user, ip, port)
  {
    caps["user" := words[user]]["ip" := words[ip]]["port" := words[port + 1]]
  }

  lemma UserIpPortMatches(words: seq<string>, k: nat, next: Re, caps: Captures)
    requires FieldsAt(words, k, k + 1, k + 2)
    requires Match(next, AfterWord(words, k + 3), Fields(words, k, k + 1, k + 2, caps)).Some?
    ensures Match(UserIpPort(next), JoinFrom(words, k), caps)
         == Match(next, AfterWord(words, k + 3), Fields(words, k, k + 1, k + 2, caps))
  {
    var c := caps["user" := words[k]];
    PortMatches(words, k + 2, next, c["ip" := words[k + 1]]);
    StepRunSpace(words, k + 1, Ip(Lit(" ", Word("port", Port(next)))), Word("port", Port(next)), c);
    StepRunSpace(words, k, UserIpPort(next), Ip(Lit(" ", Word("port", Port(next)))), caps);
  }

  lemma UserFromIpPortMatches(words: seq<string>, k: nat, next: Re, caps: Captures)
    requires FieldsAt(words, k, k + 2, k + 3) && words[k + 1] == "from"
    requires Match(next, AfterWord(words, k + 4), Fields(words, k, k + 2, k + 3, caps)).Some?
    ensures Match(UserFromIpPort(next), JoinFrom(words, k), caps)
         == Match(next, AfterWord(words, k + 4), Fields(words, k, k + 2, k + 3, caps))
  {
    var c := caps["user" := words[k]];
    var ip := Ip(Lit(" ", Word("port", Port(next))));
    PortMatches(words, k + 3, next, c["ip" := words[k + 2]]);
    StepRunSpace(words, k + 2, ip, Word("port", Port(next)), c);
    StepWord(words, k + 1, ip, c);
    StepRunSpace(words, k, UserFromIpPort(next), Word("from", ip), caps);
  }

  function WithKey(key: Option<Key>, caps: Captures): Captures {
    if key.Some? then caps["keytype" := key.value.keyType]["fingerprint" := "SHA256:" + key.value.digest] else caps
  }

  /** The words of `ssh2`, the key and the tail stand from the `k`th word on. */
  predicate RestAt(words: seq<string>, k: nat, key: Option<Key>, tail: Option<string>) {
    && IsKey(key)
    && |words| == k + |Rest(key, tail)|
    && forall i :: 0 <= i < |Rest(key, tail)| ==> words[k + i] == Rest(key, tail)[i]
  }

  lemma KeyMatches(words: seq<string>, k: nat, digest: string, caps: Captures)
    requires k + 2 < |words| && IsWord(words[k + 1])
    requires words[k + 2] == "SHA256:" + digest && IsWord(digest)
    ensures Match(KEY_PART, ":" + AfterWord(words, k), caps)
         == Some(caps["keytype" := words[k + 1]]["fingerprint" := words[k + 2]])
  {
    var fingerprint := Run("fingerprint", "SHA256:", NonSpace, 1, None, Accept);
    var keyType := Run("keytype", "", NonSpace, 1, None, Lit(" ", fingerprint));
    calc {
      Match(KEY_PART, ":" + AfterWord(words, k), caps);
      { MatchLit(":", Lit(" ", keyType), AfterWord(words, k), caps); }
      Match(Lit(" ", keyType), AfterWord(words, k), caps);
      { StepSpace(words, k, keyType, caps); }
      Match(keyType, JoinFrom(words, k + 1), caps);
      {
        StepRun(words, k + 2, fingerprint, digest, caps["keytype" := words[k + 1]]);
        StepRunSpace(words, k + 1, keyType, fingerprint, caps);
      }
      Match(fingerprint, JoinFrom(words, k + 2), caps["keytype" := words[k + 1]]);
      { StepRun(words, k + 2, fingerprint, digest, caps["keytype" := words[k + 1]]); }
      Some(caps["keytype" := words[k + 1]]["fingerprint" := words[k + 2]]);
    }
  }

  lemma Ssh2WithoutKey(words: seq<string>, k: nat, caps: Captures)
    requires k + 1 < |words| && words[k + 1] == "ssh2"
    ensures Match(SSH2, AfterWord(words, k), caps) == Some(caps)
  {
    var either := Either(KEY_PART, Accept);
    StepSpace(words, k, Lit("ssh2", either), caps);
    MatchLit(words[k + 1], either, AfterWord(words, k + 1), caps);
    assert !StartsWith(AfterWord(words, k + 1), ":");
  }

  lemma ColonWord(words: seq<string>, k: nat)
    requires k < |words| && words[k] == "ssh2:"
    ensures JoinFrom(words, k) == "ssh2" + (":" + AfterWord(words, k))
  {
  }

  lemma Ssh2WithKey(words: seq<string>, k: nat, digest: string, caps: Captures)
    requires k + 3 < |words| && words[k + 1] == "ssh2:" && IsWord(words[k + 2])
    requires words[k + 3] == "SHA256:" + digest && IsWord(digest)
    ensures Match(SSH2, AfterWord(words, k), caps)
         == Some(caps["keytype" := words[k + 2]]["fingerprint" := words[k + 3]])
  {
    var either := Either(KEY_PART, Accept);
    calc {
      Match(SSH2, AfterWord(words, k), caps);
      { StepSpace(words, k, Lit("ssh2", either), caps); }
      Match(Lit("ssh2", either), JoinFrom(words, k + 1), caps);
      { ColonWord(words, k + 1); }
      Match(Lit("ssh2", either), "ssh2" + (":" + AfterWord(words, k + 1)), caps);
      { MatchLit("ssh2", either, ":" + AfterWord(words, k + 1), caps); }
      Match(either, ":" + AfterWord(words, k + 1), caps);
      { KeyMatches(words, k + 1, digest, caps); }
      Some(caps["keytype" := words[k + 2]]["fingerprint" := words[k + 3]]);
    }
  }

  lemma Ssh2Matches(words: seq<string>, k: nat, key: Option<Key>, tail: Option<string>, caps: Captures)
    requires RestAt(words, k + 1, key, tail)
    ensures Match(SSH2, AfterWord(words, k), caps) == Some(WithKey(key, caps))
  {
    assert Rest(key, tail)[0] == words[k + 1];
    if key.None? {
      Ssh2WithoutKey(words, k, caps);
    } else {
      assert Rest(key, tail)[1] == words[k + 2] && Rest(key, tail)[2] == words[k + 3];
      Ssh2WithKey(words, k, key.value.digest, caps);
    }
  }

  /** Alternatives that their second characters tell apart. */
  predicate ToldApart(options: seq<string>) {
    && (forall i :: 0 <= i < |options| ==> |options[i]| > 1)
    && (forall i, j :: 0 <= i < |options| && 0 <= j < |options| && i != j ==> options[i][1] != options[j][1])
  }

  lemma MethodListed(how: Method)
    ensures MethodText(how) in METHODS
  {
    assert METHODS[0] == "publickey" && METHODS[1] == "password" && METHODS[2] == "keyboard-interactive/pam";
  }

  lemma MethodsToldApart()
    ensures ToldApart(METHODS)
  {
    assert METHODS[0][1] == 'u' && METHODS[1][1] == 'a' && METHODS[2][1] == 'e';
  }

  lemma SecondCharacter(s: string, t: string)
    requires |t| > 1
    ensures StartsWith(s, t) ==> |s| > 1 && s[1] == t[1]
  {
    if StartsWith(s, t) {
      assert s[1] == s[..|t|][1];
    }
  }

  lemma NoOtherOption(options: seq<string>, i: nat, j: nat, rest: string)
    requires ToldApart(options) && i < |options| && j < |options| && i != j
    ensures !StartsWith(options[j] + rest, options[i])
  {
    SecondCharacter(options[j] + rest, options[i]);
    assert (options[j] + rest)[1] == options[j][1];
  }

  lemma OneOfMatches(words: seq<string>, k: nat, name: string, options: seq<string>, next: Re)
    requires k + 1 < |words| && words[k] in options && ToldApart(options)
    ensures Match(OneOf(name, options, Lit(" ", next)), JoinFrom(words, k), map[])
         == Match(next, JoinFrom(words, k + 1), map[name := words[k]])
  {
    var j :| 0 <= j < |options| && options[j] == words[k];
    forall i | 0 <= i < |options| && i != j ensures !StartsWith(options[j] + AfterWord(words, k), options[i]) {
      NoOtherOption(options, i, j, AfterWord(words, k));
    }
    MatchOneOfAt(OneOf(name, options, Lit(" ", next)), j, 0, AfterWord(words, k), map[]);
    StepSpace(words, k, next, map[name := words[k]]);
  }

  lemma ThreeWordsMatch(words: seq<string>, name: string, options: seq<string>, next: Re)
    requires |words| > 3 && words[1] in options && ToldApart(options)
    ensures Match(Word(words[0], OneOf(name, options, Lit(" ", Word(words[2], next)))), JoinFrom(words, 0), map[])
         == Match(next, JoinFrom(words, 3), map[name := words[1]])
  {
    var third := Word(words[2], next);
    var second := OneOf(name, options, Lit(" ", third));
    calc {
      Match(Word(words[0], second), JoinFrom(words, 0), map[]);
      { StepWord(words, 0, second, map[]); }
      Match(second, JoinFrom(words, 1), map[]);
      { OneOfMatches(words, 1, name, options, third); }
      Match(third, JoinFrom(words, 2), map[name := words[1]]);
      { StepWord(words, 2, next, map[name := words[1]]); }
      Match(next, JoinFrom(words, 3), map[name := words[1]]);
    }
  }

  /** `user from ip port port ssh2 ...` */
  lemma SessionMatches(words: seq<string>, k: nat, key: Option<Key>, tail: Option<string>, caps: Captures)
    requires FieldsAt(words, k, k + 2, k + 3) && words[k + 1] == "from" && RestAt(words, k + 5, key, tail)
    ensures Match(UserFromIpPort(SSH2), JoinFrom(words, k), caps)
         == Some(WithKey(key, Fields(words, k, k + 2, k + 3, caps)))
  {
    Ssh2Matches(words, k + 4, key, tail, Fields(words, k, k + 2, k + 3, caps));
    UserFromIpPortMatches(words, k, SSH2, caps);
  }

  lemma AcceptedMatches(words: seq<string>, key: Option<Key>, tail: Option<string>)
    requires FieldsAt(words, 3, 5, 6) && RestAt(words, 8, key, tail)
    requires words[0] == "Accepted" && words[1] in METHODS && words[2] == "for" && words[4] == "from"
    ensures Match(ACCEPTED, JoinFrom(words, 0), map[])
         == Some(WithKey(key, Fields(words, 3, 5, 6, map["method" := words[1]])))
  {
    calc {
      Match(ACCEPTED, JoinFrom(words, 0), map[]);
      { MethodsToldApart(); ThreeWordsMatch(words, "method", METHODS, UserFromIpPort(SSH2)); }
      Match(UserFromIpPort(SSH2), JoinFrom(words, 3), map["method" := words[1]]);
      { SessionMatches(words, 3, key, tail, map["method" := words[1]]); }
      Some(WithKey(key, Fields(words, 3, 5, 6, map["method" := words[1]])));
    }
  }

  /** What the second pattern tries after `Failed method for`. */
  const FAILED_USER: Re := Either(Word("invalid", Word("user", UserFromIpPort(SSH2))), UserFromIpPort(SSH2))

  lemma FailedMatches(words: seq<string>, key: Option<Key>, tail: Option<string>)
    requires AreWords(words) && FieldsAt(words, 3, 5, 6) && RestAt(words, 8, key, tail)
    requires words[0] == "Failed" && words[1] in METHODS && words[2] == "for" && words[4] == "from"
    ensures Match(FAILED, JoinFrom(words, 0), map[])
         == Some(WithKey(key, Fields(words, 3, 5, 6, map["method" := words[1]])))
  {
    var caps := map["method" := words[1]];
    calc {
      Match(FAILED, JoinFrom(words, 0), map[]);
      { MethodsToldApart(); ThreeWordsMatch(words, "method", METHODS, FAILED_USER); }
      Match(FAILED_USER, JoinFrom(words, 3), caps);
      { NotInvalidUser(words, 3, UserFromIpPort(SSH2), caps); }
      Match(UserFromIpPort(SSH2), JoinFrom(words, 3), caps);
      { SessionMatches(words, 3, key, tail, caps); }
      Some(WithKey(key, Fields(words, 3, 5, 6, caps)));
    }
  }

  /** The optional `invalid user ` does not fit a user named `invalid`. */
  lemma NotInvalidUser(words: seq<string>, k: nat, next: Re, caps: Captures)
    requires AreWords(words) && k + 1 < |words| && words[k + 1] == "from"
    ensures Match(Word("invalid", Word("user", next)), JoinFrom(words, k), caps).None?
  {
    LitMustBe(words, k, "invalid", Word("user", next), caps);
    LitMustBe(words, k + 1, "user", next, caps);
  }

  lemma FailedInvalidMatches(words: seq<string>, key: Option<Key>, tail: Option<string>)
    requires FieldsAt(words, 5, 7, 8) && RestAt(words, 10, key, tail)
    requires words[0] == "Failed" && words[1] in METHODS && words[2] == "for"
    requires words[3] == "invalid" && words[4] == "user" && words[6] == "from"
    ensures Match(FAILED, JoinFrom(words, 0), map[])
         == Some(WithKey(key, Fields(words, 5, 7, 8, map["method" := words[1]])))
  {
    var caps := map["method" := words[1]];
    var session := UserFromIpPort(SSH2);
    calc {
      Match(FAILED, JoinFrom(words, 0), map[]);
      { MethodsToldApart(); ThreeWordsMatch(words, "method", METHODS, FAILED_USER); }
      Match(FAILED_USER, JoinFrom(words, 3), caps);
      { InvalidUserWords(words, key, tail, caps); }
      Match(session, JoinFrom(words, 5), caps);
      { SessionMatches(words, 5, key, tail, caps); }
      Some(WithKey(key, Fields(words, 5, 7, 8, caps)));
    }
  }

  lemma InvalidUserWords(words: seq<string>, key: Option<Key>, tail: Option<string>, caps: Captures)
    requires FieldsAt(words, 5, 7, 8) && RestAt(words, 10, key, tail)
    requires words[3] == "invalid" && words[4] == "user" && words[6] == "from"
    ensures Match(FAILED_USER, JoinFrom(words, 3), caps) == Match(UserFromIpPort(SSH2), JoinFrom(words, 5), caps)
  {
    var session := UserFromIpPort(SSH2);
    SessionMatches(words, 5, key, tail, caps);
    calc {
      Match(Word("invalid", Word("user", session)), JoinFrom(words, 3), caps);
      { StepWord(words, 3, Word("user", session), caps); }
      Match(Word("user", session), JoinFrom(words, 4), caps);
      { StepWord(words, 4, session, caps); }
      Match(session, JoinFrom(words, 5), caps);
    }
  }

  /** An address and, if there is one, the port behind it. */
  const IP_AND_PORT: Re := Ip(Either(Lit(" ", Word("port", Port(Accept))), Accept))

  function IpAndPort(words: seq<string>, withPort: bool, caps: Captures): Captures
    requires |words| >= 5 && (withPort ==> |words| > 6)
  {
    if withPort then caps["ip" := words[4]]["port" := words[6]] else caps["ip" := words[4]]
  }

  lemma InvalidUserMatches(words: seq<string>, withPort: bool)
    requires AreWords(words) && |words| >= 5 && words[4] != "" && AllIn(words[4], Address)
    requires words[0] == "Invalid" && words[1] == "user" && words[3] == "from"
    requires withPort ==> |words| > 6 && words[5] == "port" && words[6] != "" && AllIn(words[6], Digit)
    requires !withPort ==> |words| <= 6
    ensures Match(INVALID_USER, JoinFrom(words, 0), map[])
         == Some(IpAndPort(words, withPort, map["user" := words[2]]))
  {
    var user := User(Lit(" ", Word("from", IP_AND_PORT)));
    calc {
      Match(INVALID_USER, JoinFrom(words, 0), map[]);
      { StepWord(words, 0, Word("user", user), map[]); }
      Match(Word("user", user), JoinFrom(words, 1), map[]);
      { StepWord(words, 1, user, map[]); }
      Match(user, JoinFrom(words, 2), map[]);
      { UserFromMatches(words, withPort); }
      Some(IpAndPort(words, withPort, map["user" := words[2]]));
    }
  }

  lemma UserFromMatches(words: seq<string>, withPort: bool)
    requires AreWords(words) && |words| >= 5 && words[4] != "" && AllIn(words[4], Address) && words[3] == "from"
    requires withPort ==> |words| > 6 && words[5] == "port" && words[6] != "" && AllIn(words[6], Digit)
    requires !withPort ==> |words| <= 6
    ensures Match(User(Lit(" ", Word("from", IP_AND_PORT))), JoinFrom(words, 2), map[])
         == Some(IpAndPort(words, withPort, map["user" := words[2]]))
  {
    var c: Captures := map["user" := words[2]];
    IpAndMaybePort(words, withPort, c);
    StepWord(words, 3, IP_AND_PORT, c);
    StepRunSpace(words, 2, User(Lit(" ", Word("from", IP_AND_PORT))), Word("from", IP_AND_PORT), map[]);
  }

  lemma IpAndMaybePort(words: seq<string>, withPort: bool, caps: Captures)
    requires AreWords(words) && |words| >= 5 && words[4] != "" && AllIn(words[4], Address)
    requires withPort ==> |words| > 6 && words[5] == "port" && words[6] != "" && AllIn(words[6], Digit)
    requires !withPort ==> |words| <= 6
    ensures Match(IP_AND_PORT, JoinFrom(words, 4), caps) == Some(IpAndPort(words, withPort, caps))
  {
    var c := caps["ip" := words[4]];
    if withPort {
      PortMatches(words, 5, Accept, c);
      StepSpace(words, 4, Word("port", Port(Accept)), c);
    } else {
      NoPort(words, c);
    }
    assert words[4] == "" + words[4];
    StepRun(words, 4, IP_AND_PORT, words[4], caps);
  }

  lemma NoPort(words: seq<string>, c: Captures)
    requires AreWords(words) && 5 <= |words| <= 6
    ensures Match(Lit(" ", Word("port", Port(Accept))), AfterWord(words, 4), c).None?
  {
    if |words| == 6 {
      StepSpace(words, 4, Word("port", Port(Accept)), c);
      LitMustBe(words, 5, "port", Port(Accept), c);
    }
  }

  /** `a b c d user user ip port port` */
  lemma ClosedMatches(words: seq<string>, fourth: string)
    requires FieldsAt(words, 5, 6, 7)
    requires words[0] == "Connection" && words[1] == "closed" && words[2] == "by" && words[3] == fourth
    requires words[4] == "user"
    ensures Match(Word("Connection", Word("closed", Word("by", Word(fourth, Word("user", UserIpPort(Accept)))))),
                  JoinFrom(words, 0), map[])
         == Some(Fields(words, 5, 6, 7, map[]))
  {
    var last := UserIpPort(Accept);
    var four := Word(fourth, Word("user", last));
    calc {
      Match(Word("Connection", Word("closed", Word("by", four))), JoinFrom(words, 0), map[]);
      { StepWord(words, 0, Word("closed", Word("by", four)), map[]); }
      Match(Word("closed", Word("by", four)), JoinFrom(words, 1), map[]);
      { StepWord(words, 1, Word("by", four), map[]); }
      Match(Word("by", four), JoinFrom(words, 2), map[]);
      { StepWord(words, 2, four, map[]); }
      Match(four, JoinFrom(words, 3), map[]);
      { StepWord(words, 3, Word("user", last), map[]); }
      Match(Word("user", last), JoinFrom(words, 4), map[]);
      { StepWord(words, 4, last, map[]); }
      Match(last, JoinFrom(words, 5), map[]);
      { UserIpPortMatches(words, 5, Accept, map[]); }
      Some(Fields(words, 5, 6, 7, map[]));
    }
  }

  lemma DisconnectedMatches(words: seq<string>)
    requires FieldsAt(words, 3, 4, 5)
    requires words[0] == "Disconnected" && words[1] == "from" && words[2] == "user"
    ensures Match(DISCONNECTED, JoinFrom(words, 0), map[]) == Some(Fields(words, 3, 4, 5, map[]))
  {
    var last := UserIpPort(Accept);
    calc {
      Match(DISCONNECTED, JoinFrom(words, 0), map[]);
      { StepWord(words, 0, Word("from", Word("user", last)), map[]); }
      Match(Word("from", Word("user", last)), JoinFrom(words, 1), map[]);
      { StepWord(words, 1, Word("user", last), map[]); }
      Match(Word("user", last), JoinFrom(words, 2), map[]);
      { StepWord(words, 2, last, map[]); }
      Match(last, JoinFrom(words, 3), map[]);
      { UserIpPortMatches(words, 3, Accept, map[]); }
      Some(Fields(words, 3, 4, 5, map[]));
    }
  }

  // -- backwards: earlier patterns match nowhere ---------------------------------------

  /** A pattern `first method for ...` can only match where these three words are. */
  lemma MethodForNeedsWords(words: seq<string>, i: nat, first: string, options: seq<string>, next: Re) returns (k: nat)
    requires AreWords(words) && words != [] && i <= |JoinFrom(words, 0)| && IsWord(first) && AreWords(options)
    requires Match(Word(first, OneOf("method", options, Lit(" ", Word("for", next)))),
                   JoinFrom(words, 0)[i..], map[]).Some?
    ensures 0 < k && k + 1 < |words| && EndsWith(words[k - 1], first) && words[k] in options && words[k + 1] == "for"
  {
    var at, j := Position(words, 0, i);
    k := at + 1;
    var oneOf := OneOf("method", options, Lit(" ", Word("for", next)));
    LitIsRestOfWord(words, at, j, first, oneOf, map[]);
    var caps := OneOfIsWord(words, k, oneOf, Word("for", next), map[], 0);
    LitMustBe(words, k + 1, "for", next, caps);
  }

  /** From the third word on, no method is followed by `for`. */
  predicate NoMethodFor(words: seq<string>, options: seq<string>) {
    forall k :: 1 < k && k + 1 < |words| && words[k] in options ==> words[k + 1] != "for"
  }

  lemma MethodForNowhere(words: seq<string>, first: string, options: seq<string>, next: Re)
    requires AreWords(words) && words != [] && IsWord(first) && AreWords(options)
    requires NoMethodFor(words, options) && !EndsWith(words[0], first)
    ensures Search(Word(first, OneOf("method", options, Lit(" ", Word("for", next)))), JoinFrom(words, 0)).None?
  {
    var re := Word(first, OneOf("method", options, Lit(" ", Word("for", next))));
    var s := JoinFrom(words, 0);
    forall i | 0 <= i <= |s| ensures Match(re, s[i..], map[]).None? {
      if Match(re, s[i..], map[]).Some? {
        var k := MethodForNeedsWords(words, i, first, options, next);
      }
    }
    SearchNone(re, s);
  }

  /** No word ending in `a` is followed by `b`. */
  predicate NoPair(words: seq<string>, a: string, b: string) {
    forall k :: 0 <= k && k + 1 < |words| && EndsWith(words[k], a) ==> words[k + 1] != b
  }

  lemma PairNowhere(words: seq<string>, a: string, b: string, next: Re)
    requires AreWords(words) && words != [] && IsWord(a) && IsWord(b) && NoPair(words, a, b)
    ensures Search(Word(a, Word(b, next)), JoinFrom(words, 0)).None?
  {
    var re := Word(a, Word(b, next));
    var s := JoinFrom(words, 0);
    forall i | 0 <= i <= |s| ensures Match(re, s[i..], map[]).None? {
      if Match(re, s[i..], map[]).Some? {
        var k := TwoWords(words, i, a, b, next);
      }
    }
    SearchNone(re, s);
  }

  // -- no message holds the words of an earlier pattern ----------------------------------

  lemma MethodShape(s: string)
    ensures s in METHODS ==> |s| in {8, 9, 24} && s[0] in {'p', 'k'}
  {
  }

  lemma NotAddress(t: string, i: nat)
    requires i < |t| && !In(t[i], Address)
    ensures !AllIn(t, Address)
  {
  }

  lemma AddressShape(s: string)
    requires s != "" && AllIn(s, Address)
    ensures s !in METHODS && s != "for" && s != "user" && s != "closed" && IsWord(s)
  {
    MethodShape(s);
    NotAddress("for", 1);
    NotAddress("user", 0);
    NotAddress("closed", 1);
  }

  lemma DigitsShape(s: string)
    requires s != "" && AllIn(s, Digit)
    ensures s !in METHODS && IsWord(s) && s != "user" && s != "closed"
  {
    MethodShape(s);
    assert IsDigit(s[0]);
  }

  lemma VisibleIsWord(s: string)
    requires s != "" && forall i :: 0 <= i < |s| ==> '!' <= s[i] <= '~'
    ensures IsWord(s)
  {
  }

  lemma FixedWords()
    ensures IsWord("Accepted") && IsWord("Failed") && IsWord("Invalid") && IsWord("Connection")
    ensures IsWord("Disconnected") && IsWord("for") && IsWord("from") && IsWord("by") && IsWord("closed")
    ensures IsWord("invalid") && IsWord("authenticating") && IsWord("user") && IsWord("port")
    ensures IsWord("ssh2") && IsWord("ssh2:")
  {
    VisibleIsWord("Accepted"); VisibleIsWord("Failed"); VisibleIsWord("Invalid"); VisibleIsWord("Connection");
    VisibleIsWord("Disconnected"); VisibleIsWord("for"); VisibleIsWord("from"); VisibleIsWord("by");
    VisibleIsWord("closed"); VisibleIsWord("invalid"); VisibleIsWord("authenticating"); VisibleIsWord("user");
    VisibleIsWord("port"); VisibleIsWord("ssh2"); VisibleIsWord("ssh2:");
  }

  lemma MethodsAreWords()
    ensures AreWords(METHODS)
  {
    VisibleIsWord("publickey"); VisibleIsWord("password"); VisibleIsWord("keyboard-interactive/pam");
  }

  lemma RestWords(key: Option<Key>, tail: Option<string>)
    requires IsKey(key) && (tail.Some? ==> IsWord(tail.value))
    ensures AreWords(Rest(key, tail)) && AreWords(Tail(tail))
  {
    FixedWords();
    if key.Some? {
      var sha := "SHA256:" + key.value.digest;
      assert IsWord(sha);
    }
  }

  lemma HeadWords(m: Message)
    requires IsMessage(m)
    ensures AreWords(Head(m))
  {
    FixedWords();
    MethodsAreWords();
    if m.form.Accepted? || m.form.Failed? {
      MethodListed(m.form.how);
    }
    AddressShape(m.ip);
    DigitsShape(Decimal(m.port));
  }

  lemma MessageWords(m: Message)
    requires IsMessage(m)
    ensures AreWords(WordsOf(m))
  {
    HeadWords(m);
    RestWords(KeyOf(m.form), m.tail);
  }

  /** No method is followed by `for` in these words. */
  predicate Quiet(words: seq<string>) {
    forall k :: 0 <= k && k + 1 < |words| && words[k] in METHODS ==> words[k + 1] != "for"
  }

  lemma QuietTrailer(m: Message)
    requires IsMessage(m)
    ensures Quiet(Trailer(m))
  {
    MethodShape("ssh2");
    MethodShape("ssh2:");
    if KeyOf(m.form).Some? {
      MethodShape("SHA256:" + KeyOf(m.form).value.digest);
    }
  }

  lemma QuietHead(m: Message)
    requires IsMessage(m)
    ensures NoMethodFor(Head(m), METHODS)
    ensures Head(m)[|Head(m)| - 1] !in METHODS
  {
    AddressShape(m.ip);
    DigitsShape(Decimal(m.port));
    MethodShape("user");
    MethodShape("for");
    var head := Head(m);
    forall k | 1 < k && k + 1 < |head| && head[k + 1] == "for" ensures head[k] !in METHODS {
      assert |head[k + 1]| == 3;
      assert head[k] in {"user", "for"};
    }
  }

  lemma NoLaterMethodFor(m: Message)
    requires IsMessage(m)
    ensures NoMethodFor(WordsOf(m), METHODS)
  {
    QuietHead(m);
    QuietTrailer(m);
    var head, trailer := Head(m), Trailer(m);
    var words := head + trailer;
    forall k | 1 < k && k + 1 < |words| && words[k] in METHODS ensures words[k + 1] != "for" {
      if k < |head| - 1 {
        assert words[k] == head[k] && words[k + 1] == head[k + 1];
      } else if k >= |head| {
        assert words[k] == trailer[k - |head|] && words[k + 1] == trailer[k - |head| + 1];
      } 
    }
  }

  lemma EndsAlike(s: string, t: string)
    requires t != "" && EndsWith(s, t)
    ensures s != "" && s[|s| - 1] == t[|t| - 1]
  {
    assert s[|s| - |t|..][|t| - 1] == t[|t| - 1];
  }

  lemma DigitsEnd(s: string, t: string)
    requires s != "" && AllIn(s, Digit) && t != "" && !IsDigit(t[|t| - 1])
    ensures !EndsWith(s, t)
  {
    if EndsWith(s, t) {
      EndsAlike(s, t);
    }
  }

  /** In the forms after the third pattern no word that ends in `Invalid` is followed by `user`. */
  lemma NoInvalidUser(m: Message)
    requires IsMessage(m) && (m.form.ClosedInvalid? || m.form.ClosedAuth? || m.form.Disconnected?)
    ensures NoPair(WordsOf(m), "Invalid", "user")
  {
    var words := WordsOf(m);
    AddressShape(m.ip);
    DigitsShape(Decimal(m.port));
    DigitsEnd(Decimal(m.port), "Invalid");
    assert !EndsWith("authenticating", "Invalid") by {
      if EndsWith("authenticating", "Invalid") { EndsAlike("authenticating", "Invalid"); }
    }
    forall k | 0 <= k && k + 1 < |words| && words[k + 1] == "user" ensures !EndsWith(words[k], "Invalid") {
      assert |words[k + 1]| == 4 && words[k + 1][0] == 'u';
      assert words[k] in {"invalid", "authenticating", "from", "user", Decimal(m.port)};
    }
  }

  /** In the forms after the fourth pattern `closed` follows only the first word. */
  lemma ConnectionClosed(m: Message)
    requires IsMessage(m) && (m.form.ClosedAuth? || m.form.Disconnected?)
    ensures forall k :: 0 <= k && k + 1 < |WordsOf(m)| && EndsWith(WordsOf(m)[k], "Connection")
              ==> WordsOf(m)[k + 1] != "closed" || (k == 0 && m.form.ClosedAuth?)
  {
    var words := WordsOf(m);
    AddressShape(m.ip);
    DigitsShape(Decimal(m.port));
    DigitsEnd(Decimal(m.port), "Connection");
    forall k | 0 <= k && k + 1 < |words| && words[k + 1] == "closed" && !(k == 0 && m.form.ClosedAuth?)
      ensures !EndsWith(words[k], "Connection")
    {
      assert |words[k + 1]| == 6 && words[k + 1][0] == 'c';
      assert words[k] in {"user", Decimal(m.port)};
    }
  }

  /** Four fixed words whose first two stand only at the front, where the fourth is another one. */
  lemma FourWordsNowhere(words: seq<string>, a: string, b: string, c: string, d: string, next: Re)
    requires AreWords(words) && |words| > 3 && words[3] != d
    requires IsWord(a) && IsWord(b) && IsWord(c) && IsWord(d)
    requires forall k :: 0 < k && k + 1 < |words| && EndsWith(words[k], a) ==> words[k + 1] != b
    ensures Search(Word(a, Word(b, Word(c, Word(d, next)))), JoinFrom(words, 0)).None?
  {
    var re := Word(a, Word(b, Word(c, Word(d, next))));
    var s := JoinFrom(words, 0);
    forall i | 0 <= i <= |s| ensures Match(re, s[i..], map[]).None? {
      if Match(re, s[i..], map[]).Some? {
        var k := TwoWords(words, i, a, b, Word(c, Word(d, next)));
        LitMustBe(words, k + 2, c, Word(d, next), map[]);
        LitMustBe(words, 3, d, next, map[]);
      }
    }
    SearchNone(re, s);
  }

  lemma ClosedInvalidNotInClosedAuth(m: Message)
    requires IsMessage(m) && m.form.ClosedAuth?
    ensures Search(CLOSED_INVALID, Print(m)).None?
  {
    MessageWords(m);
    FixedWords();
    ConnectionClosed(m);
    FourWordsNowhere(WordsOf(m), "Connection", "closed", "by", "invalid", Word("user", UserIpPort(Accept)));
  }

  lemma AcceptedNotIn(m: Message)
    requires IsMessage(m) && !m.form.Accepted?
    ensures Search(ACCEPTED, Print(m)).None?
  {
    MessageWords(m);
    NoLaterMethodFor(m);
    FixedWords();
    MethodsAreWords();
    MethodForNowhere(WordsOf(m), "Accepted", METHODS, UserFromIpPort(SSH2));
  }

  lemma FailedNotIn(m: Message)
    requires IsMessage(m) && !m.form.Accepted? && !m.form.Failed?
    ensures Search(FAILED, Print(m)).None?
  {
    MessageWords(m);
    NoLaterMethodFor(m);
    FixedWords();
    MethodsAreWords();
    MethodForNowhere(WordsOf(m), "Failed", METHODS, FAILED_USER);
  }

  lemma InvalidUserNotIn(m: Message)
    requires IsMessage(m) && (m.form.ClosedInvalid? || m.form.ClosedAuth? || m.form.Disconnected?)
    ensures Search(INVALID_USER, Print(m)).None?
  {
    MessageWords(m);
    NoInvalidUser(m);
    FixedWords();
    PairNowhere(WordsOf(m), "Invalid", "user", User(Lit(" ", Word("from", IP_AND_PORT))));
  }

  lemma ClosedNotIn(m: Message)
    requires IsMessage(m) && m.form.Disconnected?
    ensures Search(CLOSED_INVALID, Print(m)).None? && Search(CLOSED_AUTH, Print(m)).None?
  {
    MessageWords(m);
    ConnectionClosed(m);
    FixedWords();
    var last := Word("user", UserIpPort(Accept));
    PairNowhere(WordsOf(m), "Connection", "closed", Word("by", Word("invalid", last)));
    PairNowhere(WordsOf(m), "Connection", "closed", Word("by", Word("authenticating", last)));
  }

  // -- parsing undoes printing -----------------------------------------------------------

  function OwnPattern(f: Form): Re {
    match f
    case Accepted(_, _) => ACCEPTED
    case Failed(_, _, _) => FAILED
    case InvalidUser(_) => INVALID_USER
    case ClosedInvalid => CLOSED_INVALID
    case ClosedAuth => CLOSED_AUTH
    case Disconnected => DISCONNECTED
  }

  /** What the pattern of a message's own form captures. */
  function CapturesOf(m: Message): Captures {
    match m.form
    case Accepted(how, key) => WithKey(key, SharedFields(m, map["method" := MethodText(how)]))
    case Failed(how, _, key) => WithKey(key, SharedFields(m, map["method" := MethodText(how)]))
    case InvalidUser(withPort) => if withPort then SharedFields(m, map[]) else map["user" := m.user, "ip" := m.ip]
    case _ => SharedFields(m, map[])
  }

  function SharedFields(m: Message, caps: Captures): Captures {
    caps["user" := m.user]["ip" := m.ip]["port" := Decimal(m.port)]
  }

  lemma AcceptedHead(m: Message)
    requires IsMessage(m) && m.form.Accepted?
    ensures RestAt(WordsOf(m), 8, m.form.key, m.tail) && |Head(m)| == 8
    ensures forall k :: 0 <= k < 8 ==> WordsOf(m)[k] == Head(m)[k]
  {
  }

  lemma AcceptedFields(m: Message)
    requires IsMessage(m) && m.form.Accepted?
    ensures Match(ACCEPTED, Print(m), map[]) == Some(CapturesOf(m))
  {
    MessageWords(m);
    AcceptedHead(m);
    MethodListed(m.form.how);
    AcceptedMatches(WordsOf(m), m.form.key, m.tail);
  }

  lemma FailedHead(m: Message)
    requires IsMessage(m) && m.form.Failed?
    ensures RestAt(WordsOf(m), |Head(m)|, m.form.key, m.tail)
    ensures |Head(m)| == if m.form.invalid then 10 else 8
    ensures forall k :: 0 <= k < |Head(m)| ==> WordsOf(m)[k] == Head(m)[k]
  {
  }

  lemma FailedFields(m: Message)
    requires IsMessage(m) && m.form.Failed?
    ensures Match(FAILED, Print(m), map[]) == Some(CapturesOf(m))
  {
    MessageWords(m);
    FailedHead(m);
    MethodListed(m.form.how);
    if m.form.invalid {
      FailedInvalidMatches(WordsOf(m), m.form.key, m.tail);
    } else {
      FailedMatches(WordsOf(m), m.form.key, m.tail);
    }
  }

  lemma OtherFields(m: Message)
    requires IsMessage(m) && !m.form.Accepted? && !m.form.Failed?
    ensures Match(OwnPattern(m.form), Print(m), map[]) == Some(CapturesOf(m))
  {
    var words := WordsOf(m);
    MessageWords(m);
    match m.form {
      case InvalidUser(withPort) => InvalidUserMatches(words, withPort);
      case ClosedInvalid => ClosedMatches(words, "invalid");
      case ClosedAuth => ClosedMatches(words, "authenticating");
      case Disconnected => DisconnectedMatches(words);
    }
  }

  lemma OwnPatternFound(m: Message)
    requires IsMessage(m)
    ensures Search(OwnPattern(m.form), Print(m)) == Some(CapturesOf(m))
  {
    if m.form.Accepted? {
      AcceptedFields(m);
    } else if m.form.Failed? {
      FailedFields(m);
    } else {
      OtherFields(m);
    }
  }

  lemma {:induction false} LastCharacter(words: seq<string>, k: nat)
    requires AreWords(words) && k < |words|
    ensures var s := JoinFrom(words, k); s != "" && !IsSpace(s[|s| - 1])
    decreases |words| - k
  {
    assert IsWord(words[k]);
    if k < |words| - 1 {
      LastCharacter(words, k + 1);
    }
  }

  lemma NothingToStrip(m: Message)
    requires IsMessage(m)
    ensures Strip(Print(m)) == Print(m)
  {
    var words := WordsOf(m);
    MessageWords(m);
    LastCharacter(words, 0);
    assert IsWord(words[0]);
    assert Print(m)[0] == words[0][0];
  }

  /** The patterns that `parse_sshd_message` tries before the one of this form. */
  lemma EarlierPatternsFail(m: Message)
    requires IsMessage(m)
    ensures !m.form.Accepted? ==> Search(ACCEPTED, Print(m)).None?
    ensures !m.form.Accepted? && !m.form.Failed? ==> Search(FAILED, Print(m)).None?
    ensures m.form.ClosedInvalid? || m.form.ClosedAuth? || m.form.Disconnected?
        ==> Search(INVALID_USER, Print(m)).None?
    ensures m.form.ClosedAuth? || m.form.Disconnected? ==> Search(CLOSED_INVALID, Print(m)).None?
    ensures m.form.Disconnected? ==> Search(CLOSED_AUTH, Print(m)).None?
  {
    if !m.form.Accepted? {
      AcceptedNotIn(m);
      if !m.form.Failed? {
        FailedNotIn(m);
        if !m.form.InvalidUser? {
          InvalidUserNotIn(m);
          if m.form.ClosedAuth? {
            ClosedInvalidNotInClosedAuth(m);
          } else if m.form.Disconnected? {
            ClosedNotIn(m);
          }
        }
      }
    }
  }

  lemma Recognized(m: Message)
    requires IsMessage(m)
    ensures Recognize(Print(m)) == Some((TypeName(m.form), CapturesOf(m)))
  {
    OwnPatternFound(m);
    EarlierPatternsFail(m);
    CapturesMean(m);
  }

  /**
   * For every form, user name without blanks, address, port number, key and trailing word:
   * parsing the printed message returns exactly the fields it was printed from.
   */
  lemma ParsePrint(m: Message)
    requires IsMessage(m)
    ensures ParseSshdMessage(Print(m)) == Some(Meaning(m))
  {
    NothingToStrip(m);
    Recognized(m);
    CapturesMean(m);
  }

  lemma CapturesMean(m: Message)
    requires IsMessage(m)
    ensures var caps := CapturesOf(m);
      && Group(caps, "user") == Some(m.user) && Group(caps, "ip") == Some(m.ip)
      && PortOf(caps) == Meaning(m).sourcePort
      && Group(caps, "keytype") == Meaning(m).keyType && Group(caps, "fingerprint") == Meaning(m).fingerprint
    ensures m.form.Accepted? || m.form.Failed? ==> Group(CapturesOf(m), "method") == Some(MethodText(m.form.how))
  {
    DecimalRoundTrip(m.port);
  }
}
