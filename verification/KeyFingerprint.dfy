/**
 * `authorized_keys`: what its lines say, and the cache that follows its modification time
 * while other programs write the file. The fingerprint of a key is a parameter.
 */
module KeyFingerprint {
  import opened Common
  import opened Regex
  import opened Words
  import L = LastUsed

  datatype KeyEntry = KeyEntry(keyType: string, fingerprint: string, comment: string)

  /** `sha256_fingerprint`: nothing for text that is not base64. */
  type Fingerprint = string -> Option<string>

  predicate IsKeyType(word: string) {
    || word == "ssh-rsa"
    || word == "ssh-dss"
    || word == "ssh-ed25519"
    || word == "ecdsa-sha2-nistp256"
    || word == "ecdsa-sha2-nistp384"
    || word == "ecdsa-sha2-nistp521"
    || word == "sk-ssh-ed25519@openssh.com"
    || word == "sk-ecdsa-sha2-nistp256@openssh.com"
  }

  /** The eight types by name. */
  datatype KeyType = Rsa | Dss | Ed25519 | Nistp256 | Nistp384 | Nistp521 | SkEd25519 | SkNistp256

  function TypeText(t: KeyType): string {
    match t
    case Rsa => "ssh-rsa"
    case Dss => "ssh-dss"
    case Ed25519 => "ssh-ed25519"
    case Nistp256 => "ecdsa-sha2-nistp256"
    case Nistp384 => "ecdsa-sha2-nistp384"
    case Nistp521 => "ecdsa-sha2-nistp521"
    case SkEd25519 => "sk-ssh-ed25519@openssh.com"
    case SkNistp256 => "sk-ecdsa-sha2-nistp256@openssh.com"
  }

  /** Each of them is a key type, */
  lemma TypeIsKnown(t: KeyType)
    ensures IsKeyType(TypeText(t))
  {
  }

  lemma PrintableIsWord(s: string)
    requires s != "" && forall i :: 0 <= i < |s| ==> '!' <= s[i] <= '~'
    ensures IsWord(s)
  {
  }

  lemma TypeIsWord(t: KeyType)
    ensures IsWord(TypeText(t))
  {
    PrintableIsWord(TypeText(t));
  }

  /** and there are no others. */
  lemma KnownTypes(word: string) returns (t: KeyType)
    requires IsKeyType(word)
    ensures word == TypeText(t)
  {
    t := if word == "ssh-rsa" then Rsa
         else if word == "ssh-dss" then Dss
         else if word == "ssh-ed25519" then Ed25519
         else if word == "ecdsa-sha2-nistp256" then Nistp256
         else if word == "ecdsa-sha2-nistp384" then Nistp384
         else if word == "ecdsa-sha2-nistp521" then Nistp521
         else if word == "sk-ssh-ed25519@openssh.com" then SkEd25519
         else SkNistp256;
  }

  // -- one line ------------------------------------------------------------------------------

  /** `str.split()`. */
  function Tokens(s: string): seq<string>
    decreases |s|
  {
    if s == "" then []
    else if IsSpace(s[0]) then Tokens(s[1..])
    else
      var n := RunLength(s[1..], NonSpace, None) + 1;
      [s[..n]] + Tokens(s[n..])
  }

  predicate IsComment(word: string) { word != "" && word[0] == '#' }

  function TypeAt(tokens: seq<string>, k: nat): nat
    requires k <= |tokens|
    ensures k <= TypeAt(tokens, k) <= |tokens|
    decreases |tokens| - k
  {
    if k == |tokens| || IsKeyType(tokens[k]) then k else TypeAt(tokens, k + 1)
  }

  /** `" ".join(...)`. */
  function Join(words: seq<string>): string { if words == [] then "" else JoinFrom(words, 0) }

  function ParseTokens(tokens: seq<string>, fp: Fingerprint): Option<KeyEntry> {
    if tokens == [] || IsComment(tokens[0]) then None
    else
      var k := TypeAt(tokens, 0);
      if k + 1 >= |tokens| then None
      else if fp(tokens[k + 1]).None? then None
      else Some(KeyEntry(tokens[k], fp(tokens[k + 1]).value, Join(tokens[k + 2..])))
  }

  function ParseLine(line: string, fp: Fingerprint): Option<KeyEntry> { ParseTokens(Tokens(line), fp) }

  lemma {:induction false} TokensOfWord(w: string, rest: string)
    requires IsWord(w) && (rest == "" || IsSpace(rest[0]))
    ensures Tokens(w + rest) == [w] + Tokens(rest)
  {
    RunLengthExact(w[1..], rest, NonSpace, None);
    assert (w + rest)[1..] == w[1..] + rest && (w + rest)[0] == w[0];
    assert (w + rest)[..|w|] == w && (w + rest)[|w|..] == rest;
  }

  lemma {:induction false} TokensOfWords(words: seq<string>, k: nat)
    requires AreWords(words) && k < |words|
    ensures Tokens(JoinFrom(words, k)) == words[k..]
    decreases |words| - k
  {
    var rest := AfterWord(words, k);
    TokensOfWord(words[k], rest);
    if k < |words| - 1 {
      TokensOfWords(words, k + 1);
      assert rest[1..] == JoinFrom(words, k + 1);
      assert words[k..] == [words[k]] + words[k + 1..];
    }
  }

  lemma {:induction false} TypeIsAt(tokens: seq<string>, k: nat, at: nat)
    requires k <= at < |tokens| && IsKeyType(tokens[at]) && forall i :: k <= i < at ==> !IsKeyType(tokens[i])
    ensures TypeAt(tokens, k) == at
    decreases at - k
  {
    if k < at {
      TypeIsAt(tokens, k + 1, at);
    }
  }

  lemma KeyTypeIsNoComment(keyType: string)
    requires IsKeyType(keyType)
    ensures !IsComment(keyType)
  {
  }

  lemma ParsedTokens(words: seq<string>, at: nat, fp: Fingerprint)
    requires at + 1 < |words| && IsKeyType(words[at]) && (forall i :: 0 <= i < at ==> !IsKeyType(words[i]))
    requires !IsComment(words[0])
    ensures ParseTokens(words, fp) ==
      match fp(words[at + 1]) {
        case None => None
        case Some(f) => Some(KeyEntry(words[at], f, Join(words[at + 2..])))
      }
  {
    TypeIsAt(words, 0, at);
  }

  /** A line of options, a key type, a key and a comment, printed with single spaces, is read back. */
  lemma ParsePrintedKey(options: seq<string>, kind: KeyType, key: string, comment: seq<string>, fp: Fingerprint)
    requires AreWords(options) && IsWord(key) && AreWords(comment)
    requires (forall i :: 0 <= i < |options| ==> !IsKeyType(options[i])) && (options != [] ==> options[0][0] != '#')
    ensures ParseLine(JoinFrom(options + [TypeText(kind), key] + comment, 0), fp) ==
      match fp(key) {
        case None => None
        case Some(f) => Some(KeyEntry(TypeText(kind), f, if comment == [] then "" else JoinFrom(comment, 0)))
      }
  {
    TypeIsKnown(kind);
    TypeIsWord(kind);
    ParsePrintedTokens(options, TypeText(kind), key, comment, fp);
  }

  lemma ParsePrintedTokens(options: seq<string>, keyType: string, key: string, comment: seq<string>, fp: Fingerprint)
    requires AreWords(options) && IsWord(key) && AreWords(comment) && IsWord(keyType) && IsKeyType(keyType)
    requires (forall i :: 0 <= i < |options| ==> !IsKeyType(options[i])) && (options != [] ==> !IsComment(options[0]))
    ensures ParseLine(Join(options + [keyType, key] + comment), fp) ==
      match fp(key) {
        case None => None
        case Some(f) => Some(KeyEntry(keyType, f, Join(comment)))
      }
  {
    var words, at := options + [keyType, key] + comment, |options|;
    assert words[at] == keyType && words[at + 1] == key && words[at + 2..] == comment && words[0..] == words;
    TokensOfWords(words, 0);
    KeyTypeIsNoComment(keyType);
    ParsedTokens(words, at, fp);
  }

  lemma {:induction false} TokensOfBlanks(blanks: string, s: string)
    requires AllIn(blanks, Space)
    ensures Tokens(blanks + s) == Tokens(s)
  {
    if blanks == "" {
      assert blanks + s == s;
    } else {
      assert (blanks + s)[0] == blanks[0] && (blanks + s)[1..] == blanks[1..] + s;
      TokensOfBlanks(blanks[1..], s);
    }
  }

  /** A line that is blank, or whose first other character is a hash, has no entry. */
  lemma BlanksAndComments(blanks: string, rest: string, fp: Fingerprint)
    requires AllIn(blanks, Space)
    ensures ParseLine(blanks, fp) == None && ParseLine(blanks + ("#" + rest), fp) == None
  {
    TokensOfBlanks(blanks, "");
    assert blanks + "" == blanks;
    TokensOfBlanks(blanks, "#" + rest);
    assert ("#" + rest)[0] == '#';
  }

  // -- the file ------------------------------------------------------------------------------

  /** A Python dict of entries by fingerprint: the keys in order, and the value of each. */
  datatype Dict = Dict(order: seq<string>, at: map<string, KeyEntry>)

  const EMPTY := Dict([], map[])

  function Put(d: Dict, e: KeyEntry): Dict {
    Dict(if e.fingerprint in d.at then d.order else d.order + [e.fingerprint], d.at[e.fingerprint := e])
  }

  function Entries(lines: seq<string>, fp: Fingerprint): seq<KeyEntry> {
    if lines == [] then []
    else
      var n := |lines| - 1;
      match ParseLine(lines[n], fp)
      case None => Entries(lines[..n], fp)
      case Some(e) => Entries(lines[..n], fp) + [e]
  }

  function Store(entries: seq<KeyEntry>): Dict {
    if entries == [] then EMPTY else Put(Store(entries[..|entries| - 1]), entries[|entries| - 1])
  }

  lemma {:induction false} StoreHas(entries: seq<KeyEntry>, f: string)
    ensures f in Store(entries).at <==> exists e :: e in entries && e.fingerprint == f
    ensures f in Store(entries).order <==> f in Store(entries).at
  {
    if entries != [] {
      var n := |entries| - 1;
      StoreHas(entries[..n], f);
      assert entries == entries[..n] + [entries[n]];
    }
  }

  /** Each fingerprint is in the order once, where it came first. */
  lemma {:induction false} OrderIsByFirst(entries: seq<KeyEntry>, e: KeyEntry)
    ensures Store(entries + [e]).order
         == if exists d :: d in entries && d.fingerprint == e.fingerprint then Store(entries).order
            else Store(entries).order + [e.fingerprint]
  {
    assert (entries + [e])[..|entries|] == entries;
    StoreHas(entries, e.fingerprint);
  }

  /** The last entry with a fingerprint wins. */
  lemma {:induction false} LastWins(entries: seq<KeyEntry>, i: nat)
    requires i < |entries| && forall j :: i < j < |entries| ==> entries[j].fingerprint != entries[i].fingerprint
    ensures entries[i].fingerprint in Store(entries).at && Store(entries).at[entries[i].fingerprint] == entries[i]
  {
    var n := |entries| - 1;
    if i < n {
      LastWins(entries[..n], i);
    }
  }

  method ParseAuthorizedKeys(lines: seq<string>, fp: Fingerprint) returns (entries: seq<KeyEntry>)
    ensures entries == Entries(lines, fp)
  {
    entries := [];
    for n := 0 to |lines|
      invariant entries == Entries(lines[..n], fp)
    {
      assert lines[..n + 1][..n] == lines[..n];
      var tokens := Tokens(lines[n]);
      if tokens == [] || IsComment(tokens[0]) {
        continue;
      }
      var k := 0;
      while k < |tokens| && !IsKeyType(tokens[k])
        invariant k <= |tokens| && TypeAt(tokens, 0) == TypeAt(tokens, k)
      {
        k := k + 1;
      }
      if k + 1 >= |tokens| {
        continue;
      }
      var fingerprint := fp(tokens[k + 1]);
      if fingerprint.None? {
        continue;
      }
      entries := entries + [KeyEntry(tokens[k], fingerprint.value, Join(tokens[k + 2..]))];
    }
    assert lines[..|lines|] == lines;
  }

  // -- the cache -----------------------------------------------------------------------------

  datatype File = Missing | File(mtime: int, lines: seq<string>)

  /** `_mtime` and `_by_fingerprint`. */
  datatype Cache = Cache(mtime: Option<int>, dict: Dict)

  /** What `parse_authorized_keys` makes of the file. */
  function Parsed(file: File, fp: Fingerprint): Dict {
    if file.Missing? then EMPTY else Store(Entries(file.lines, fp))
  }

  /** `_reload_if_needed`, which sees the file twice: `seen` by `stat`, `read` when it is opened. */
  function Reloaded(cache: Cache, seen: File, read: File, fp: Fingerprint): Cache {
    if seen.Missing? then Cache(None, EMPTY)
    else if cache.mtime == Some(seen.mtime) then cache
    else Cache(Some(seen.mtime), Parsed(read, fp))
  }

  function ShortId(fingerprint: string): string {
    L.LastChars(if StartsWith(fingerprint, "SHA256:") then fingerprint[7..] else fingerprint, 12)
  }

  function LabelFor(dict: Dict, fingerprint: string): string {
    if fingerprint !in dict.at then "unknown-" + ShortId(fingerprint)
    else if dict.at[fingerprint].comment != "" then dict.at[fingerprint].comment
    else "unlabeled-" + ShortId(fingerprint)
  }

  class KeyStore {
    const fp: Fingerprint
    var mtime: Option<int>
    var byFingerprint: Dict

    constructor (fp: Fingerprint)
      ensures this.fp == fp && mtime == None && byFingerprint == EMPTY
    {
      this.fp := fp;
      mtime, byFingerprint := None, EMPTY;
    }

    method ReloadIfNeeded(seen: File, read: File)
      modifies this
      ensures Cache(mtime, byFingerprint) == Reloaded(old(Cache(mtime, byFingerprint)), seen, read, fp)
    {
      if seen.Missing? {
        mtime, byFingerprint := None, EMPTY;
        return;
      }
      if mtime == Some(seen.mtime) {
        return;
      }
      var entries: seq<KeyEntry> := [];
      if read.File? {
        entries := ParseAuthorizedKeys(read.lines, fp);
      }
      var dict := EMPTY;
      for i := 0 to |entries|
        invariant dict == Store(entries[..i])
      {
        assert entries[..i + 1][..i] == entries[..i];
        dict := Put(dict, entries[i]);
      }
      assert entries[..|entries|] == entries;
      mtime, byFingerprint := Some(seen.mtime), dict;
    }

    method LabelForFingerprint(fingerprint: string, seen: File, read: File) returns (text: string)
      modifies this
      ensures Cache(mtime, byFingerprint) == Reloaded(old(Cache(mtime, byFingerprint)), seen, read, fp)
      ensures text == LabelFor(byFingerprint, fingerprint)
    {
      ReloadIfNeeded(seen, read);
      if fingerprint in byFingerprint.at && byFingerprint.at[fingerprint].comment != "" {
        return byFingerprint.at[fingerprint].comment;
      }
      text := (if fingerprint in byFingerprint.at then "unlabeled-" else "unknown-") + ShortId(fingerprint);
    }
  }

  // -- the cache while the file is written ---------------------------------------------------

  /** `Reading(seen)`: between the `stat` and the read of one reload. */
  datatype Pc = Idle | Reading(seen: File)

  /** `used` only records the modification times so far. */
  datatype State = State(file: File, cache: Cache, pc: Pc, used: set<int>)

  datatype Step = Write(mtime: int, lines: seq<string>) | Delete | Stat | Read

  const INITIAL := State(Missing, Cache(None, EMPTY), Idle, {})

  function Next(fp: Fingerprint, s: State, step: Step): State {
    match step
    case Write(mtime, lines) => s.(file := File(mtime, lines), used := s.used + {mtime})
    case Delete => s.(file := Missing)
    case Stat =>
      if s.pc.Reading? then s
      else if s.file.Missing? || s.cache.mtime == Some(s.file.mtime)
      then s.(cache := Reloaded(s.cache, s.file, s.file, fp))
      else s.(pc := Reading(s.file))
    case Read =>
      if s.pc.Idle? then s else s.(cache := Reloaded(s.cache, s.pc.seen, s.file, fp), pc := Idle)
  }

  function After(fp: Fingerprint, steps: seq<Step>): State {
    if steps == [] then INITIAL else Next(fp, After(fp, steps[..|steps| - 1]), steps[|steps| - 1])
  }

  /** Every write gets a modification time that no write had before. */
  predicate FreshTimes(steps: seq<Step>) {
    forall i, j :: 0 <= i < j < |steps| && steps[i].Write? && steps[j].Write? ==> steps[i].mtime != steps[j].mtime
  }

  /** The cache is the file's if it has the file's modification time, and empty if it has none. */
  predicate Coherent(fp: Fingerprint, s: State) {
    && (s.cache.mtime.Some? ==> s.cache.mtime.value in s.used)
    && (s.file.File? ==> s.file.mtime in s.used)
    && (s.pc.Reading? ==> s.pc.seen.File? && s.pc.seen.mtime in s.used && s.cache.mtime != Some(s.pc.seen.mtime))
    && (s.file.File? && s.cache.mtime == Some(s.file.mtime) ==> s.cache.dict == Parsed(s.file, fp))
    && (s.cache.mtime.None? ==> s.cache.dict == EMPTY)
  }

  lemma {:induction false} UsedTimes(fp: Fingerprint, steps: seq<Step>, t: int)
    ensures t in After(fp, steps).used <==> exists i :: 0 <= i < |steps| && steps[i].Write? && steps[i].mtime == t
  {
    if steps != [] {
      var n := |steps| - 1;
      UsedTimes(fp, steps[..n], t);
      assert steps == steps[..n] + [steps[n]];
    }
  }

  /**
   * Whatever is written, deleted and created again, also between a `stat` and its read:
   * whenever the cached time is the file's time, the cache is what the file says.
   */
  lemma {:induction false} CacheIsCoherent(fp: Fingerprint, steps: seq<Step>)
    requires FreshTimes(steps)
    ensures Coherent(fp, After(fp, steps))
  {
    if steps != [] {
      var n := |steps| - 1;
      CacheIsCoherent(fp, steps[..n]);
      if steps[n].Write? {
        UsedTimes(fp, steps[..n], steps[n].mtime);
      }
    }
  }

  /** A lookup during which nobody writes agrees with a fresh parse of the file. */
  lemma QuietLookup(fp: Fingerprint, steps: seq<Step>)
    requires FreshTimes(steps) && After(fp, steps).pc == Idle
    ensures var s := After(fp, steps);
      && Next(fp, Next(fp, s, Stat), Read).cache.dict == Parsed(s.file, fp)
      && Reloaded(s.cache, s.file, s.file, fp).dict == Parsed(s.file, fp)
  {
    CacheIsCoherent(fp, steps);
  }

  /** After a lookup during which nobody writes, exactly the keys of the file are known. */
  lemma QuietLookupKnows(fp: Fingerprint, steps: seq<Step>, f: string)
    requires FreshTimes(steps) && After(fp, steps).pc == Idle
    ensures var s := After(fp, steps);
      f in Next(fp, Next(fp, s, Stat), Read).cache.dict.at <==>
        s.file.File? && exists e :: e in Entries(s.file.lines, fp) && e.fingerprint == f
  {
    var s := After(fp, steps);
    QuietLookup(fp, steps);
    if s.file.File? {
      StoreHas(Entries(s.file.lines, fp), f);
    }
  }

  /** A write with the time of the cached file and other entries. */
  predicate Reuses(fp: Fingerprint, s: State, step: Step) {
    step.Write? && s.cache.mtime == Some(step.mtime) && s.cache.dict != Parsed(File(step.mtime, step.lines), fp)
  }

  lemma StepExact(fp: Fingerprint, s: State, step: Step)
    requires Coherent(fp, s)
    ensures Coherent(fp, Next(fp, s, step)) <==> !Reuses(fp, s, step)
  {
  }

  /** The cache is coherent at every point of the run. */
  predicate AlwaysCoherent(fp: Fingerprint, steps: seq<Step>)
    decreases |steps|
  {
    Coherent(fp, After(fp, steps)) && (steps != [] ==> AlwaysCoherent(fp, steps[..|steps| - 1]))
  }

  predicate NeverReuses(fp: Fingerprint, steps: seq<Step>)
    decreases |steps|
  {
    steps != [] ==>
      && !Reuses(fp, After(fp, steps[..|steps| - 1]), steps[|steps| - 1])
      && NeverReuses(fp, steps[..|steps| - 1])
  }

  /** The cache is coherent throughout a run if and only if no write in it is such a write. */
  lemma {:induction false} ReuseExact(fp: Fingerprint, steps: seq<Step>)
    ensures AlwaysCoherent(fp, steps) <==> NeverReuses(fp, steps)
  {
    if steps != [] {
      var before, last := steps[..|steps| - 1], steps[|steps| - 1];
      ReuseExact(fp, before);
      if AlwaysCoherent(fp, before) {
        StepExact(fp, After(fp, before), last);
      }
    }
  }

  /** Lookups then go on with the old entries. */
  lemma StaysStale(fp: Fingerprint, s: State, t: int, lines: seq<string>)
    requires s.cache.mtime == Some(t) && s.pc == Idle
    ensures var written := Next(fp, s, Write(t, lines));
      && written.file == File(t, lines)
      && Next(fp, Next(fp, written, Stat), Read).cache == s.cache
  {
  }

  /**
   * A write between the `stat` and the read: the new entries are kept under the old time, so
   * the next lookup, which sees the new time, reads the file again.
   */
  lemma WrittenBetween(fp: Fingerprint, s: State, t: int, lines: seq<string>)
    requires s.pc == Idle && s.file.File? && s.cache.mtime != Some(s.file.mtime) && t != s.file.mtime
    ensures var read := Next(fp, Next(fp, Next(fp, s, Stat), Write(t, lines)), Read);
      && read.cache == Cache(Some(s.file.mtime), Store(Entries(lines, fp)))
      && Next(fp, read, Stat).pc == Reading(File(t, lines))
  {
  }

  lemma AfterPush(fp: Fingerprint, steps: seq<Step>, step: Step)
    ensures After(fp, steps + [step]) == Next(fp, After(fp, steps), step)
  {
    assert (steps + [step])[..|steps|] == steps;
  }

  lemma AfterTwo(fp: Fingerprint, steps: seq<Step>, a: Step, b: Step)
    ensures After(fp, steps + [a, b]) == Next(fp, Next(fp, After(fp, steps), a), b)
  {
    AfterPush(fp, steps, a);
    AfterPush(fp, steps + [a], b);
    Snoc2(steps, a, b);
  }

  lemma AfterThree(fp: Fingerprint, steps: seq<Step>, a: Step, b: Step, c: Step)
    ensures After(fp, steps + [a, b, c]) == Next(fp, Next(fp, Next(fp, After(fp, steps), a), b), c)
  {
    AfterTwo(fp, steps, a, b);
    AfterPush(fp, steps + [a, b], c);
    Snoc3(steps, a, b, c);
  }

  /** A run in which a file is written twice at one time, and the second text is never seen. */
  lemma ReusedTimeIsStale(fp: Fingerprint, t: int, first: seq<string>, second: seq<string>)
    ensures var s := After(fp, [Write(t, first), Stat, Read] + [Write(t, second), Stat, Read]);
      s.pc == Idle && s.file == File(t, second) && s.cache == Cache(Some(t), Store(Entries(first, fp)))
  {
    var run := [Write(t, first), Stat, Read];
    AfterThree(fp, [], Write(t, first), Stat, Read);
    assert [] + run == run;
    AfterThree(fp, run, Write(t, second), Stat, Read);
    StaysStale(fp, After(fp, run), t, second);
  }

  // -- the labels of the daemon and of the client --------------------------------------------

  function Raw(e: KeyEntry): L.RawKey { L.RawKey(e.keyType, e.fingerprint, e.comment) }

  lemma PrefixesDiffer(a: string, x: string, b: string, y: string, k: nat)
    requires k < |a| && k < |b| && a[k] != b[k]
    ensures a + x != b + y
  {
    assert (a + x)[k] == a[k] && (b + y)[k] == b[k];
  }

  /** A key that is not listed, or without a comment, is labelled by the end of its digest. */
  lemma LabelTexts(dict: Dict, front: string, last12: string)
    requires |last12| == 12 || (|last12| < 12 && front == "")
    ensures var f := "SHA256:" + (front + last12);
      LabelFor(dict, f) == if f !in dict.at then "unknown-" + last12
                           else if dict.at[f].comment == "" then "unlabeled-" + last12
                           else dict.at[f].comment
  {
    var digest := front + last12;
    assert ("SHA256:" + digest)[..7] == "SHA256:" && ("SHA256:" + digest)[7..] == digest;
    assert digest[|front|..] == last12;
    assert front == "" ==> digest == last12;
  }

  /** The daemon labels a login with a listed key as the client labels the key, if it has a comment. */
  lemma LabelsAgreeIffCommented(dict: Dict, f: string)
    requires f in dict.at
    ensures LabelFor(dict, f) == L.DisplayLabel(Raw(dict.at[f])) <==> dict.at[f].comment != ""
  {
    PrefixesDiffer("unlabeled-", ShortId(f), "chave-", L.LastChars(dict.at[f].fingerprint, 8), 0);
  }

  /** A label that the daemon gave to a login, with a cache in which this is no key's comment. */
  ghost predicate LabelledApart(text: string, shown: string) {
    exists d: Dict, g: string :: text == LabelFor(d, g) && forall h :: h in d.at ==> d.at[h].comment != shown
  }

  lemma NotShown(d: Dict, g: string, key: KeyEntry)
    requires key.comment == "" && forall h :: h in d.at ==> d.at[h].comment != L.DisplayLabel(Raw(key))
    ensures LabelFor(d, g) != L.DisplayLabel(Raw(key))
  {
    PrefixesDiffer("unlabeled-", ShortId(g), "chave-", L.LastChars(key.fingerprint, 8), 0);
    PrefixesDiffer("unknown-", ShortId(g), "chave-", L.LastChars(key.fingerprint, 8), 0);
  }

  /**
   * So a key without a comment never shows a last use, however often it is used: whatever the
   * key file said when each login was labelled, if only no comment was what the client shows.
   */
  lemma UncommentedKeyLooksUnused(key: KeyEntry, history: seq<L.LoginEvent>)
    requires key.comment == ""
    requires forall e :: e in history && e.result == "success" && e.keyLabel != "" ==>
               LabelledApart(e.keyLabel, L.DisplayLabel(Raw(key)))
    ensures L.FirstTime(history, L.DisplayLabel(Raw(key))) == None
  {
    var shown := L.DisplayLabel(Raw(key));
    forall e | e in history ensures !L.Uses(e, shown) {
      if L.Uses(e, shown) {
        var d: Dict, g: string :|
          e.keyLabel == LabelFor(d, g) && forall h :: h in d.at ==> d.at[h].comment != shown;
        NotShown(d, g, key);
      }
    }
    L.NoUseNoTime(history, shown);
  }
}
