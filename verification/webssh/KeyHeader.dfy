// PrivateKey in handler.py: finding the BEGIN line of a key, and parsing the text
// from there with one parser after another.
module KeyHeader {
  import opened Options
  import opened Strings

  /** The characters str.strip() removes. */
  predicate IsSpace(c: char) {
    || '\t' <= c <= '\r' || '\U{1C}' <= c <= '\U{20}' || c == '\U{85}' || c == '\U{A0}' || c == '\U{1680}'
    || '\U{2000}' <= c <= '\U{200A}' || c == '\U{2028}' || c == '\U{2029}' || c == '\U{202F}' || c == '\U{205F}' || c == '\U{3000}'
  }

  function StripLeft(s: string): string {
    if s != "" && IsSpace(s[0]) then StripLeft(s[1..]) else s
  }

  function StripRight(s: string): string {
    if s != "" && IsSpace(s[|s| - 1]) then StripRight(s[..|s| - 1]) else s
  }

  function Strip(s: string): string {
    StripRight(StripLeft(s))
  }

  /** By number: tab to carriage return, 1C to 20, next line, and the blanks beyond Latin-1. */
  lemma SpacesExactly(c: char)
    ensures IsSpace(c)
       <==> (9 <= c as int <= 13 || 0x1C <= c as int <= 0x20
             || c as int in {0x85, 0xA0, 0x1680, 0x2028, 0x2029, 0x202F, 0x205F, 0x3000} || 0x2000 <= c as int <= 0x200A)
  {
  }

  predicate AllSpace(s: string) {
    forall c | c in s :: IsSpace(c)
  }

  /** Neither starts nor ends in a space. */
  predicate Bare(s: string) {
    s == "" || (!IsSpace(s[0]) && !IsSpace(s[|s| - 1]))
  }

  lemma {:induction false} StripLeftSplits(s: string) returns (a: string)
    ensures s == a + StripLeft(s) && AllSpace(a) && (StripLeft(s) == "" || !IsSpace(StripLeft(s)[0]))
  {
    if s != "" && IsSpace(s[0]) {
      a := StripLeftSplits(s[1..]);
      a := [s[0]] + a;
      assert s == [s[0]] + s[1..];
    } else {
      a := "";
    }
  }

  lemma {:induction false} StripRightSplits(s: string) returns (b: string)
    ensures s == StripRight(s) + b && AllSpace(b) && (StripRight(s) == "" || !IsSpace(StripRight(s)[|StripRight(s)| - 1]))
  {
    if s != "" && IsSpace(s[|s| - 1]) {
      b := StripRightSplits(s[..|s| - 1]);
      b := b + [s[|s| - 1]];
      assert s == s[..|s| - 1] + [s[|s| - 1]];
    } else {
      b := "";
    }
  }

  /** What is stripped off is all space, and what is left has none at its ends. */
  lemma StripSplits(s: string) returns (a: string, b: string)
    ensures s == a + Strip(s) + b && AllSpace(a) && AllSpace(b) && Bare(Strip(s))
  {
    a := StripLeftSplits(s);
    b := StripRightSplits(StripLeft(s));
    assert s == a + (Strip(s) + b);
  }

  lemma {:induction false} StripLeftOff(a: string, t: string)
    requires AllSpace(a)
    ensures StripLeft(a + t) == StripLeft(t)
  {
    if a == "" {
      assert a + t == t;
    } else {
      assert (a + t)[0] == a[0] && a[0] in a && (a + t)[1..] == a[1..] + t;
      StripLeftOff(a[1..], t);
    }
  }

  lemma {:induction false} StripRightOff(t: string, b: string)
    requires AllSpace(b)
    ensures StripRight(t + b) == StripRight(t)
  {
    if b == "" {
      assert t + b == t;
    } else {
      var n := |b| - 1;
      assert (t + b)[|t + b| - 1] == b[n] && b[n] in b && (t + b)[..|t + b| - 1] == t + b[..n];
      StripRightOff(t, b[..n]);
    }
  }

  /** And nothing else is left when a text without spaces at its ends stands between spaces. */
  lemma StripFinds(a: string, t: string, b: string)
    requires AllSpace(a) && AllSpace(b) && t != "" && Bare(t)
    ensures Strip(a + t + b) == t
  {
    assert a + t + b == a + (t + b);
    StripLeftOff(a, t + b);
    assert (t + b)[0] == t[0];
    StripRightOff(t, b);
  }

  const BEGIN := "-----BEGIN "
  const END := " PRIVATE KEY-----"
  const TAG_TO_NAME: map<string, string> := map["RSA" := "RSA", "DSA" := "DSS", "EC" := "ECDSA", "OPENSSH" := "Ed25519"]

  predicate StartsWith(s: string, p: string) {
    |p| <= |s| && s[..|p|] == p
  }

  predicate EndsWith(s: string, p: string) {
    |p| <= |s| && s[|s| - |p|..] == p
  }

  /** The name of the key kind, if the line, stripped, is a header for one. */
  function HeaderName(raw: string): Option<string> {
    var line := Strip(raw);
    if line != "" && StartsWith(line, BEGIN) && EndsWith(line, END) then
      var lst := Split(line, ' ');
      if |lst| == 4 && lst[1] != "" then Lookup(TAG_TO_NAME, lst[1]) else None
    else None
  }

  // ----- which lines are headers

  // The markers are spelt out once here, so that the lemmas below reason about their parts only.
  lemma Spelling() returns (begin: string, private: string, key: string)
    ensures BEGIN == begin + [' '] && END == [' '] + private + [' '] + key
    ensures begin == "-----BEGIN" && private == "PRIVATE" && key == "KEY-----"
    ensures ' ' !in begin && ' ' !in private && ' ' !in key
  {
    begin, private, key := "-----BEGIN", "PRIVATE", "KEY-----";
  }

  lemma Markers() returns (begin: string, private: string, key: string)
    ensures BEGIN == begin + [' '] && END == [' '] + private + [' '] + key
    ensures begin == "-----BEGIN" && private == "PRIVATE" && key == "KEY-----"
    ensures Split(begin, ' ') == [begin] && Split(private + [' '] + key, ' ') == [private, key]
  {
    begin, private, key := Spelling();
    TwoWords(private, key);
    SinglePart(begin, ' ');
  }

  lemma TwoWords(b: string, c: string)
    requires ' ' !in b && ' ' !in c
    ensures Split(b + [' '] + c, ' ') == [b, c]
  {
    SinglePart(b, ' ');
    SinglePart(c, ' ');
    SplitAround(b, c, ' ');
  }

  lemma BeginParts(rest: string)
    ensures Split(BEGIN + rest, ' ') == ["-----BEGIN"] + Split(rest, ' ')
  {
    var begin, private, key := Markers();
    assert BEGIN + rest == begin + [' '] + rest;
    SplitAround(begin, rest, ' ');
  }

  lemma EndParts(tag: string)
    ensures Split(tag + END, ' ') == Split(tag, ' ') + ["PRIVATE", "KEY-----"]
  {
    var begin, private, key := Markers();
    var tail := private + [' '] + key;
    assert END == [' '] + tail;
    assert tag + END == tag + [' '] + tail;
    SplitAround(tag, tail, ' ');
  }

  lemma FramedParts(tag: string)
    ensures Split(BEGIN + tag + END, ' ') == ["-----BEGIN"] + (Split(tag, ' ') + ["PRIVATE", "KEY-----"])
  {
    assert BEGIN + tag + END == BEGIN + (tag + END);
    BeginParts(tag + END);
    EndParts(tag);
  }

  /** Four parts between the two markers leave room for exactly one tag; markers that share their blank make three parts. */
  lemma FrameOfFour(line: string) returns (tag: string)
    requires StartsWith(line, BEGIN) && EndsWith(line, END) && |Split(line, ' ')| == 4
    ensures line == BEGIN + tag + END && Split(line, ' ')[1] == tag && ' ' !in tag
  {
    var rest := line[|BEGIN|..];
    assert line == BEGIN + rest;
    if |rest| < |END| {
      SharedBlank(line, rest);
    }
    tag := rest[..|rest| - |END|];
    assert rest == tag + END && line == BEGIN + tag + END;
    FramedParts(tag);
    SinglePart(tag, ' ');
  }

  lemma SharedBlank(line: string, rest: string)
    requires line == BEGIN + rest && EndsWith(line, END) && |rest| < |END|
    ensures |Split(line, ' ')| == 3
  {
    var k := |line| - |END|;
    assert line[k] == END[0] == ' ' && BEGIN[k] == line[k];
    assert k == 10 && rest == END[1..];
    var begin, private, key := Markers();
    assert rest == private + [' '] + key;
    BeginParts(rest);
  }

  lemma TagsAreWords(tag: string)
    requires tag in TAG_TO_NAME
    ensures ' ' !in tag && tag != ""
  {
  }

  /** The four kinds a header can name, and what the program calls them. */
  predicate TagNames(tag: string, name: string) {
    || (tag == "RSA" && name == "RSA")
    || (tag == "DSA" && name == "DSS")
    || (tag == "EC" && name == "ECDSA")
    || (tag == "OPENSSH" && name == "Ed25519")
  }

  lemma TagsAreFour(tag: string, name: string)
    ensures TagNames(tag, name) <==> Lookup(TAG_TO_NAME, tag) == Some(name)
  {
  }

  lemma FrameIsBare(tag: string)
    ensures Bare(BEGIN + tag + END) && BEGIN + tag + END != ""
  {
    var line := BEGIN + tag + END;
    assert line[0] == BEGIN[0] && line[|line| - 1] == END[|END| - 1];
  }

  lemma FrameIsHeader(raw: string, tag: string)
    requires tag in TAG_TO_NAME && Strip(raw) == BEGIN + tag + END
    ensures HeaderName(raw) == Some(TAG_TO_NAME[tag])
  {
    TagsAreWords(tag);
    FramedParts(tag);
    SinglePart(tag, ' ');
  }

  /** The line is the frame around a tag of the kind `name`, with any spaces before and after it. */
  ghost predicate IsHeaderFor(raw: string, name: string) {
    exists a, tag, b ::
      AllSpace(a) && TagNames(tag, name) && AllSpace(b) && raw == a + ("-----BEGIN " + tag + " PRIVATE KEY-----") + b
  }

  /** A line is a header exactly if it is the frame around one of the four tags, with any spaces before and after it. */
  lemma HeaderExactly(raw: string, name: string)
    ensures HeaderName(raw) == Some(name) <==> IsHeaderFor(raw, name)
  {
    if HeaderName(raw) == Some(name) {
      var tag := FrameOfFour(Strip(raw));
      var a, b := StripSplits(raw);
      TagsAreFour(tag, name);
      assert AllSpace(a) && TagNames(tag, name) && AllSpace(b) && raw == a + (BEGIN + tag + END) + b;
    }
    if IsHeaderFor(raw, name) {
      var a, tag, b :| AllSpace(a) && TagNames(tag, name) && AllSpace(b) && raw == a + (BEGIN + tag + END) + b;
      TagsAreFour(tag, name);
      FrameIsBare(tag);
      StripFinds(a, BEGIN + tag + END, b);
      FrameIsHeader(raw, tag);
    }
  }

  /** So a header on a line of its own is found, whatever ends the line. */
  lemma OrdinaryHeader(tag: string, name: string, end: string)
    requires TagNames(tag, name) && end in {"", "\n", "\r\n"}
    ensures HeaderName(BEGIN + tag + END + end) == Some(name)
  {
    var raw := BEGIN + tag + END + end;
    assert AllSpace("") && AllSpace(end) && raw == "" + (BEGIN + tag + END) + end;
    HeaderExactly(raw, name);
  }

  // ----- lines

  /** Where the line that starts at `from` ends, its newline included. */
  function LineEnd(text: string, from: nat): (end: nat)
    requires from <= |text|
    ensures from <= end <= |text| && (from < |text| ==> from < end)
    decreases |text| - from
  {
    if from == |text| then from
    else if text[from] == '\n' then from + 1
    else LineEnd(text, from + 1)
  }

  lemma {:induction false} LineEndIsNext(text: string, from: nat)
    requires from <= |text|
    ensures var end := LineEnd(text, from);
      && (end < |text| ==> text[end - 1] == '\n')
      && forall k | from <= k < end - 1 :: text[k] != '\n'
    decreases |text| - from
  {
    if from < |text| && text[from] != '\n' {
      LineEndIsNext(text, from + 1);
    }
  }

  ghost predicate IsLineStart(text: string, o: nat) {
    o < |text| && (o == 0 || text[o - 1] == '\n')
  }

  function LineAt(text: string, o: nat): string
    requires o <= |text|
  {
    text[o..LineEnd(text, o)]
  }

  /** The first header line from `from` on. */
  ghost predicate FirstHeader(text: string, o: nat, name: string) {
    && IsLineStart(text, o)
    && HeaderName(LineAt(text, o)) == Some(name)
    && NoHeaderBefore(text, o)
  }

  ghost predicate NoHeaderBefore(text: string, end: nat) {
    forall k | 0 <= k < end && IsLineStart(text, k) :: HeaderName(LineAt(text, k)) == None
  }

  /** From one line start the scan comes to the next one, and has passed no other in between. */
  lemma NextLine(text: string, start: nat)
    requires IsLineStart(text, start) && NoHeaderBefore(text, start)
    ensures var end := LineEnd(text, start);
      && (end < |text| ==> IsLineStart(text, end))
      && (HeaderName(LineAt(text, start)) == None ==> NoHeaderBefore(text, end))
  {
    LineEndIsNext(text, start);
    var end := LineEnd(text, start);
    forall k | start < k < end ensures !IsLineStart(text, k) {
    }
  }

  // ----- the parsers

  /** What a paramiko key class makes of the text from the stream position on. */
  datatype Parsed = Accepted(key: string) | NeedsPassphrase | Refused(why: string)

  type Parser = (string, string, Option<string>) -> Parsed

  datatype Result = PrivateKeyObject(key: string) | InvalidKey | PassphraseMissing | WrongKeyOrPassphrase(withPassphrase: bool)

  /** The kinds to try: a header that says OPENSSH may hold any of them. */
  function Candidates(name: string): seq<string> {
    [name] + if name == "Ed25519" then OTHERS else []
  }

  const OTHERS: seq<string> := ["RSA", "ECDSA", "DSS"]

  function Verdict(parsed: Parsed, password: Option<string>): Result {
    match parsed
    case Accepted(key) => PrivateKeyObject(key)
    case NeedsPassphrase => PassphraseMissing
    case Refused(_) => WrongKeyOrPassphrase(password.Some?)
  }

  /** The first parser that does not refuse decides. */
  function Decide(parse: Parser, names: seq<string>, text: string, password: Option<string>): Result {
    if names == [] then WrongKeyOrPassphrase(password.Some?)
    else
      var parsed := parse(names[0], text, password);
      if parsed.Refused? then Decide(parse, names[1..], text, password) else Verdict(parsed, password)
  }

  /** How many parsers run until one decides. */
  function RunsNeeded(parse: Parser, names: seq<string>, text: string, password: Option<string>): (n: nat)
    ensures n <= |names|
  {
    if names == [] then 0
    else if parse(names[0], text, password).Refused? then 1 + RunsNeeded(parse, names[1..], text, password)
    else 1
  }

  /** The first `n` kinds, each tried from `offset`. */
  ghost function Tried(names: seq<string>, n: nat, offset: nat): seq<(string, nat)>
    requires n <= |names|
  {
    seq(n, i requires 0 <= i < n => (names[i], offset))
  }

  /** Which kinds a header allows, written out. */
  lemma CandidatesExactly(name: string)
    ensures Candidates(name) == if name == "Ed25519" then ["Ed25519", "RSA", "ECDSA", "DSS"] else [name]
  {
  }

  /** The result is that of the first kind that is not refused: its key, or the demand for a passphrase; and no parser runs after it. */
  lemma {:induction false} FirstNotRefusedDecides(parse: Parser, names: seq<string>, i: nat, text: string, password: Option<string>)
    requires i < |names| && !parse(names[i], text, password).Refused?
    requires forall j | 0 <= j < i :: parse(names[j], text, password).Refused?
    ensures Decide(parse, names, text, password)
         == match parse(names[i], text, password) case Accepted(key) => PrivateKeyObject(key) case _ => PassphraseMissing
    ensures RunsNeeded(parse, names, text, password) == i + 1
  {
    if i > 0 {
      assert parse(names[0], text, password).Refused?;
      FirstNotRefusedDecides(parse, names[1..], i - 1, text, password);
    }
  }

  /** When all refuse, the message mentions the passphrase if one was given. */
  lemma {:induction false} AllRefuse(parse: Parser, names: seq<string>, text: string, password: Option<string>)
    requires forall name | name in names :: parse(name, text, password).Refused?
    ensures Decide(parse, names, text, password) == WrongKeyOrPassphrase(password.Some?)
    ensures RunsNeeded(parse, names, text, password) == |names|
  {
    if names != [] {
      assert names[0] in names;
      AllRefuse(parse, names[1..], text, password);
    }
  }

  /** An empty passphrase counts as none. */
  function PasswordBytes(password: string): Option<string> {
    if password != "" then Some(password) else None
  }

  const MAX_LENGTH: nat := 16384

  class PrivateKey {
    const privatekey: string
    const password: string
    /** The position of the stream over `privatekey`. */
    var position: nat
    var lastException: Option<string>
    /** Every parser run so far: the kind, and the stream position it started from. */
    ghost var attempts: seq<(string, nat)>

    ghost predicate Valid()
      reads this
    {
      position <= |privatekey|
    }

    static method Create(privatekey: string, password: string) returns (k: PrivateKey?)
      ensures k == null <==> |privatekey| > 16384
      ensures k != null ==> fresh(k) && k.Valid() && k.privatekey == privatekey && k.password == password
                            && k.position == 0 && k.attempts == []
    {
      if |privatekey| > MAX_LENGTH {
        return null;
      }
      k := new PrivateKey(privatekey, password);
    }

    constructor (privatekey: string, password: string)
      ensures Valid() && this.privatekey == privatekey && this.password == password
      ensures position == 0 && attempts == []
    {
      this.privatekey := privatekey;
      this.password := password;
      position := 0;
      lastException := None;
      attempts := [];
    }

    /**
      Reads lines from the start up to and including the first header. What it returns beside the name is the
      length of the last line it read, so stepping back by it leads to where that line starts.
    */
    method ParseName() returns (name: Option<string>, length: nat)
      requires Valid() && position == 0 && privatekey != ""
      modifies this`position
      ensures Valid() && length <= position
      ensures name.Some? ==> FirstHeader(privatekey, position - length, name.value)
      ensures name.None? ==> NoHeaderBefore(privatekey, |privatekey|)
    {
      name, length := None, 0;
      while position < |privatekey|
        invariant Valid() && length <= position
        invariant position < |privatekey| ==> IsLineStart(privatekey, position)
        invariant name.None? && NoHeaderBefore(privatekey, position)
        decreases |privatekey| - position
      {
        var line := LineAt(privatekey, position);
        NextLine(privatekey, position);
        position := LineEnd(privatekey, position);
        length := |line|;
        name := HeaderName(line);
        if name.Some? {
          return;
        }
      }
    }

    /** Seeks to `offset` and runs one parser from there; wherever that leaves the stream, the next run seeks again. */
    method GetSpecificPkey(parse: Parser, name: string, offset: nat, password: Option<string>) returns (parsed: Parsed)
      requires Valid() && offset <= |privatekey|
      modifies this
      ensures Valid() && attempts == old(attempts) + [(name, offset)]
      ensures parsed == parse(name, privatekey[offset..], password)
      ensures lastException == if parsed.Refused? then Some(parsed.why) else old(lastException)
    {
      position := offset;
      attempts := attempts + [(name, position)];
      parsed := parse(name, privatekey[position..], password);
      var left: nat :| left <= |privatekey|;
      position := left;
      if parsed.Refused? {
        lastException := Some(parsed.why);
      }
    }

    /**
      Every parser starts from the first header line, the kinds are tried in the order the header allows, and the
      first one that does not refuse decides.
    */
    method GetPkeyObj(parse: Parser) returns (result: Result)
      requires Valid() && position == 0 && privatekey != "" && attempts == []
      modifies this
      ensures result == InvalidKey <==> NoHeaderBefore(privatekey, |privatekey|)
      ensures result == InvalidKey ==> attempts == []
      ensures forall o: nat, name | FirstHeader(privatekey, o, name) ::
        var names, text, pass := Candidates(name), privatekey[o..], if password == "" then None else Some(password);
        && result == Decide(parse, names, text, pass)
        && attempts == Tried(names, RunsNeeded(parse, names, text, pass), o)
    {
      var name, length := ParseName();
      if name.None? {
        return InvalidKey;
      }
      var offset := position - length;
      var password := PasswordBytes(this.password);
      FirstHeaderIsUnique(privatekey, offset, name.value);
      result := TryAll(parse, name.value, offset, password);
    }

    /** One parser after the other, all from `offset`. */
    method TryAll(parse: Parser, name: string, offset: nat, password: Option<string>) returns (result: Result)
      requires Valid() && offset <= |privatekey|
      modifies this
      ensures var names, text := Candidates(name), privatekey[offset..];
        && result == Decide(parse, names, text, password) && result != InvalidKey
        && attempts == old(attempts) + Tried(names, RunsNeeded(parse, names, text, password), offset)
    {
      ghost var all, text := Candidates(name), privatekey[offset..];
      var parsed := GetSpecificPkey(parse, name, offset, password);
      TriedCons(all, RunsNeeded(parse, all[1..], text, password), offset);
      if parsed.Refused? && name == "Ed25519" {
        parsed := TryOthers(parse, offset, password);
      }
      result := Verdict(parsed, password);
    }

    /** The loop over the other kinds. */
    method TryOthers(parse: Parser, offset: nat, password: Option<string>) returns (parsed: Parsed)
      requires Valid() && offset <= |privatekey|
      modifies this
      ensures var text := privatekey[offset..];
        && Verdict(parsed, password) == Decide(parse, OTHERS, text, password)
        && attempts == old(attempts) + Tried(OTHERS, RunsNeeded(parse, OTHERS, text, password), offset)
    {
      ghost var text := privatekey[offset..];
      parsed := Refused("");
      var i := 0;
      while i < |OTHERS| && parsed.Refused?
        invariant 0 <= i <= |OTHERS| && Valid()
        invariant attempts == old(attempts) + Tried(OTHERS, i, offset)
        invariant Decide(parse, OTHERS, text, password)
               == if parsed.Refused? then Decide(parse, OTHERS[i..], text, password) else Verdict(parsed, password)
        invariant RunsNeeded(parse, OTHERS, text, password)
               == i + if parsed.Refused? then RunsNeeded(parse, OTHERS[i..], text, password) else 0
      {
        parsed := GetSpecificPkey(parse, OTHERS[i], offset, password);
        assert OTHERS[i..][1..] == OTHERS[i + 1..];
        i := i + 1;
      }
    }
  }

  lemma TriedCons(names: seq<string>, n: nat, offset: nat)
    requires n < |names|
    ensures Tried(names, 1 + n, offset) == [(names[0], offset)] + Tried(names[1..], n, offset)
    ensures Tried(names, 1, offset) == [(names[0], offset)]
  {
  }

  /** There is at most one first header. */
  lemma FirstHeaderIsUnique(text: string, o: nat, name: string)
    requires FirstHeader(text, o, name)
    ensures !NoHeaderBefore(text, |text|)
    ensures forall o': nat, name' | FirstHeader(text, o', name') :: o' == o && name' == name
  {
  }
}
