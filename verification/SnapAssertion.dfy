/** Snap assertions: how the text divides, and how signatures are checked up to the root key. */
module SnapAssertion {
  import opened Basics

  type Header = map<string, string>

  datatype Assertion = Assertion(header: Header, body: string, content: string, signature: string)

  const NLNL := "\n\n"
  const SIGN_KEY := "sign-key-sha3-384"

  // Dividing the text

  predicate Separates(s: string, i: nat) {
    i + 2 <= |s| && s[i] == '\n' && s[i + 1] == '\n'
  }

  /** bytes.Index for the blank line. */
  function FirstBlank(s: string, from: nat): (r: Option<nat>)
    requires from <= |s|
    ensures match r
            case None => forall i | from <= i <= |s| :: !Separates(s, i)
            case Some(i) => from <= i && Separates(s, i) && forall j | from <= j < i :: !Separates(s, j)
    decreases |s| - from
  {
    if Separates(s, from) then Some(from)
    else if from == |s| then None
    else FirstBlank(s, from + 1)
  }

  /** bytes.LastIndex for the blank line, looking before `end`. */
  function LastBlank(s: string, end: nat): (r: Option<nat>)
    requires end <= |s|
    ensures match r
            case None => forall i | 0 <= i < end :: !Separates(s, i)
            case Some(i) => i < end && Separates(s, i) && forall j | i < j < end :: !Separates(s, j)
  {
    if end == 0 then None
    else if Separates(s, end - 1) then Some(end - 1)
    else LastBlank(s, end - 1)
  }

  /** Where a line ends, and where the next one starts (bufio.ScanLines, without the trailing CR). */
  function Line(s: string): string {
    var i := IndexOf(s, '\n');
    if i > 0 && s[i - 1] == '\r' then s[..i - 1] else s[..i]
  }

  /** The text after its first line. */
  function AfterLine(s: string): (rest: string)
    ensures s != "" ==> |rest| < |s|
  {
    var i := IndexOf(s, '\n');
    if i < |s| then s[i + 1..] else ""
  }

  function HeaderFrom(s: string, h: Header): Header
    decreases |s|
  {
    if s == "" then h
    else if HasPrefix(Line(s), " ") then HeaderFrom(AfterLine(s), h)
    else match Cut(Line(s), ':')
      case None => h
      case Some((k, v)) => HeaderFrom(AfterLine(s), h[k := TrimSpace(v)])
  }

  method ParseHeaders(head: string) returns (h: Header)
    ensures h == HeaderFrom(head, map[])
  {
    h := map[];
    var s := head;
    while s != ""
      invariant HeaderFrom(head, map[]) == HeaderFrom(s, h)
      decreases |s|
    {
      var line := Line(s);
      s := AfterLine(s);
      if HasPrefix(line, " ") {
        continue;
      }
      var kv := Cut(line, ':');
      if kv == None {
        break;
      }
      h := h[kv.value.0 := TrimSpace(kv.value.1)];
    }
  }

  /** The headers and body of an assertion's content: the body follows the first blank line. */
  function Divide(content: string): (Header, string) {
    match FirstBlank(content, 0)
    case None => (HeaderFrom(content, map[]), "")
    case Some(j) => (HeaderFrom(content[..j], map[]), content[j + 2..])
  }

  /** newAssertion: the signature follows the last blank line. */
  function Parse(s: string): Option<Assertion> {
    match LastBlank(s, |s|)
    case None => None
    case Some(i) =>
      var (header, body) := Divide(s[..i]);
      Some(Assertion(header, body, s[..i], s[i + 2..]))
  }

  method NewAssertion(s: string) returns (a: Option<Assertion>)
    ensures a == Parse(s)
  {
    var split := LastBlank(s, |s|);
    if split == None {
      return None;
    }
    var content, signature := s[..split.value], s[split.value + 2..];
    var headersBodySplit := FirstBlank(content, 0);
    var head, body := content, "";
    if headersBodySplit.Some? {
      body := content[headersBodySplit.value + 2..];
      head := content[..headersBodySplit.value];
    }
    var headers := ParseHeaders(head);
    return Some(Assertion(headers, body, content, signature));
  }

  predicate NoBlank(s: string) {
    forall i | 0 <= i <= |s| :: !Separates(s, i)
  }

  /** No blank line overlaps a text that neither has one nor starts with a newline. */
  lemma SignatureSplits(content: string, signature: string)
    requires NoBlank(signature) && (signature == "" || signature[0] != '\n')
    ensures var s := content + NLNL + signature; LastBlank(s, |s|) == Some(|content|)
  {
    var s := content + NLNL + signature;
    assert Separates(s, |content|);
    forall i | |content| < i < |s| ensures !Separates(s, i) {
      if i > |content| + 1 {
        assert Separates(s, i) <==> Separates(signature, i - |content| - 2);
      }
    }
  }

  lemma HeadSplits(head: string, body: string)
    requires NoBlank(head) && (head == "" || head[|head| - 1] != '\n')
    ensures FirstBlank(head + NLNL + body, 0) == Some(|head|)
  {
    var s := head + NLNL + body;
    assert Separates(s, |head|);
    forall i | 0 <= i < |head| ensures !Separates(s, i) {
      if i + 1 < |head| {
        assert Separates(s, i) <==> Separates(head, i);
      }
    }
  }

  /** The text an assertion signs. */
  function Content(head: string, body: string): string {
    if body == "" then head else head + NLNL + body
  }

  function Print(head: string, body: string, signature: string): string {
    Content(head, body) + NLNL + signature
  }

  lemma ContentDivides(head: string, body: string)
    requires NoBlank(head) && (head == "" || head[|head| - 1] != '\n')
    ensures Divide(Content(head, body)) == (HeaderFrom(head, map[]), body)
  {
    if body != "" {
      HeadSplits(head, body);
      CutAt(head, body);
    }
  }

  /** Writing an assertion and parsing it gives back its parts: the signature is what follows the
      last blank line, and the content it signs is everything before. The body may hold blank lines. */
  lemma PrintParse(head: string, body: string, signature: string)
    requires NoBlank(head) && (head == "" || head[|head| - 1] != '\n')
    requires NoBlank(signature) && (signature == "" || signature[0] != '\n')
    ensures Parse(Print(head, body, signature)) ==
            Some(Assertion(HeaderFrom(head, map[]), body, Content(head, body), signature))
  {
    SignatureSplits(Content(head, body), signature);
    CutAt(Content(head, body), signature);
    ContentDivides(head, body);
  }

  lemma CutAt(a: string, b: string)
    ensures (a + NLNL + b)[..|a|] == a && (a + NLNL + b)[|a| + 2..] == b
  {
  }

  /** Only a text without a blank line is refused. */
  lemma ParseFailsIff(s: string)
    ensures Parse(s) == None <==> NoBlank(s)
  {
  }

  // Writing the headers

  /** A header entry, with the lines that continue its value. */
  datatype Field = Field(key: string, value: string, more: seq<string>)

  /** The value has no white space at its ends, nothing has a newline, and the key neither a ':' nor a blank in
      front. */
  predicate Plain(f: Field) {
    && ':' !in f.key && '\n' !in f.key && (f.key == "" || f.key[0] != ' ')
    && '\n' !in f.value && Trimmed(f.value)
    && forall i | 0 <= i < |f.more| :: '\n' !in f.more[i]
  }

  predicate AllPlain(fields: seq<Field>) {
    forall i | 0 <= i < |fields| :: Plain(fields[i])
  }

  /** The lines that continue a value, each indented. */
  function Continued(more: seq<string>): string {
    if more == [] then "" else "\n" + (" " + more[0] + Continued(more[1..]))
  }

  function FieldText(f: Field): string {
    f.key + [':'] + (" " + f.value) + Continued(f.more)
  }

  /** The entries, a newline between each two. */
  function PrintHeader(fields: seq<Field>): string {
    if fields == [] then ""
    else if |fields| == 1 then FieldText(fields[0])
    else FieldText(fields[0]) + ("\n" + PrintHeader(fields[1..]))
  }

  /** The entries' values, later ones winning; continuing lines are not read. */
  function Collect(h: Header, fields: seq<Field>): Header
    decreases |fields|
  {
    if fields == [] then h else Collect(h[fields[0].key := fields[0].value], fields[1..])
  }

  /** The end of a line: of the text, or a newline. */
  predicate LineEnds(tail: string) {
    tail == "" || tail[0] == '\n'
  }

  function NextLine(tail: string): string {
    if tail == "" then "" else tail[1..]
  }

  lemma FirstLine(line: string, tail: string)
    requires '\n' !in line && LineEnds(tail)
    ensures AfterLine(line + tail) == NextLine(tail)
    ensures Line(line + tail) == if line != "" && line[|line| - 1] == '\r' then line[..|line| - 1] else line
  {
    var s := line + tail;
    assert tail != "" ==> s[|line|] == '\n';
    assert forall j | 0 <= j < |line| :: s[j] == line[j] && line[j] in line;
    assert IndexOf(s, '\n') == |line| && s[..|line|] == line;
  }

  lemma TrimValue(v: string)
    requires Trimmed(v)
    ensures TrimSpace(" " + v) == v
  {
    assert (" " + v)[1..] == v;
    assert TrimLeft(" " + v) == TrimLeft(v) == v;
  }

  /** A line with a ':' that is not indented, and not ended by CR, is an entry. */
  lemma EntryLine(line: string, k: string, v: string, tail: string, h: Header)
    requires '\n' !in line && LineEnds(tail) && line != "" && line[0] != ' ' && line[|line| - 1] != '\r'
    requires Cut(line, ':') == Some((k, v))
    ensures HeaderFrom(line + tail, h) == HeaderFrom(NextLine(tail), h[k := TrimSpace(v)])
  {
    FirstLine(line, tail);
    assert line[..1] == [line[0]];
    HeaderUnfolds(line + tail, h, k, v);
  }

  lemma HeaderUnfolds(s: string, h: Header, k: string, v: string)
    requires s != "" && !HasPrefix(Line(s), " ") && Cut(Line(s), ':') == Some((k, v))
    ensures HeaderFrom(s, h) == HeaderFrom(AfterLine(s), h[k := TrimSpace(v)])
  {
  }

  lemma EntryRead(f: Field, tail: string, h: Header)
    requires Plain(f) && LineEnds(tail)
    ensures HeaderFrom(f.key + [':'] + (" " + f.value) + tail, h) == HeaderFrom(NextLine(tail), h[f.key := f.value])
  {
    PlainLine(f);
    TrimValue(f.value);
    EntryLine(f.key + [':'] + (" " + f.value), f.key, " " + f.value, tail, h);
  }

  lemma PlainLine(f: Field)
    requires Plain(f)
    ensures var line := f.key + [':'] + (" " + f.value);
            && '\n' !in line && line != "" && line[0] != ' ' && line[|line| - 1] != '\r'
            && Cut(line, ':') == Some((f.key, " " + f.value))
  {
    var line := f.key + [':'] + (" " + f.value);
    CutFirst(f.key, ':', " " + f.value);
    assert line[|line| - 1] == if f.value == "" then ' ' else f.value[|f.value| - 1];
    assert line[0] == if f.key == "" then ':' else f.key[0];
  }

  lemma ContinuedRead(text: string, tail: string, h: Header)
    requires '\n' !in text && LineEnds(tail)
    ensures HeaderFrom(" " + text + tail, h) == HeaderFrom(NextLine(tail), h)
  {
    FirstLine(" " + text, tail);
    var line := Line(" " + text + tail);
    assert line[..1] == " ";
  }

  lemma {:induction false} AllContinuedRead(more: seq<string>, tail: string, h: Header)
    requires (forall i | 0 <= i < |more| :: '\n' !in more[i]) && LineEnds(tail)
    ensures HeaderFrom(NextLine(Continued(more) + tail), h) == HeaderFrom(NextLine(tail), h)
  {
    if more == [] {
      assert Continued(more) + tail == tail;
    } else {
      ContinuedRead(more[0], Continued(more[1..]) + tail, h);
      AllContinuedRead(more[1..], tail, h);
      ContinuedAfter(more, tail);
    }
  }

  lemma ContinuedAfter(more: seq<string>, tail: string)
    requires more != []
    ensures NextLine(Continued(more) + tail) == " " + more[0] + (Continued(more[1..]) + tail)
  {
    AfterNewline(" " + more[0], Continued(more[1..]), tail);
  }

  lemma AfterNewline(a: string, b: string, tail: string)
    ensures NextLine("\n" + (a + b) + tail) == a + (b + tail)
  {
    assert ("\n" + (a + b) + tail)[1..] == a + b + tail;
    Assoc3(a, b, tail);
  }

  lemma FieldRead(f: Field, tail: string, h: Header)
    requires Plain(f) && LineEnds(tail)
    ensures HeaderFrom(FieldText(f) + tail, h) == HeaderFrom(NextLine(tail), h[f.key := f.value])
  {
    var line := f.key + [':'] + (" " + f.value);
    assert FieldText(f) + tail == line + (Continued(f.more) + tail);
    EntryRead(f, Continued(f.more) + tail, h);
    AllContinuedRead(f.more, tail, h[f.key := f.value]);
  }

  /** Header entries are read back as written, the last of each key counting. */
  lemma {:induction false} HeaderRoundTrip(fields: seq<Field>, h: Header)
    requires AllPlain(fields)
    ensures HeaderFrom(PrintHeader(fields), h) == Collect(h, fields)
    decreases |fields|
  {
    if fields != [] {
      var tail := if |fields| == 1 then "" else "\n" + PrintHeader(fields[1..]);
      assert PrintHeader(fields) == FieldText(fields[0]) + tail;
      FieldRead(fields[0], tail, h);
      HeaderRoundTrip(fields[1..], h[fields[0].key := fields[0].value]);
    }
  }

  /** A line without ':' that is not indented ends the headers. */
  lemma HeaderEnds(line: string, tail: string, h: Header)
    requires '\n' !in line && '\r' !in line && ':' !in line && (line == "" || line[0] != ' ') && LineEnds(tail)
    ensures HeaderFrom(line + tail, h) == h
  {
    FirstLine(line, tail);
    CutIff(line, ':', "", "");
    assert line != "" ==> line[|line| - 1] in line;
    assert line != "" ==> line[..1] == [line[0]];
  }

  /** Text without a blank line that does not end in a newline. */
  predicate OnePiece(s: string) {
    NoBlank(s) && (s == "" || s[|s| - 1] != '\n')
  }

  lemma JoinPieces(a: string, b: string)
    requires OnePiece(a) && OnePiece(b)
    ensures OnePiece(a + b)
    ensures b != "" && b[0] != '\n' ==> OnePiece(a + ("\n" + b))
  {
    forall i | 0 <= i <= |a + b| ensures !Separates(a + b, i) {
      assert i + 1 < |a| ==> (Separates(a + b, i) <==> Separates(a, i));
      assert i >= |a| ==> (Separates(a + b, i) <==> Separates(b, i - |a|));
    }
    if b != "" && b[0] != '\n' {
      var s := a + ("\n" + b);
      forall i | 0 <= i <= |s| ensures !Separates(s, i) {
        assert i + 1 < |a| ==> (Separates(s, i) <==> Separates(a, i));
        assert i > |a| ==> (Separates(s, i) <==> Separates(b, i - |a| - 1));
      }
    }
  }

  lemma PlainPiece(s: string)
    requires '\n' !in s
    ensures OnePiece(s)
  {
    assert forall i | 0 <= i < |s| :: s[i] in s;
  }

  lemma {:induction false} ContinuedPiece(more: seq<string>)
    requires forall i | 0 <= i < |more| :: '\n' !in more[i]
    ensures OnePiece(Continued(more))
  {
    if more != [] {
      var line, rest := " " + more[0], Continued(more[1..]);
      ContinuedPiece(more[1..]);
      PlainPiece(line);
      JoinPieces(line, rest);
      JoinPieces("", line + rest);
      assert "" + ("\n" + (line + rest)) == Continued(more);
    }
  }

  lemma FieldPiece(f: Field)
    requires Plain(f)
    ensures OnePiece(FieldText(f)) && FieldText(f) != "" && FieldText(f)[0] != '\n'
  {
    var line := f.key + [':'] + (" " + f.value);
    PlainPiece(line);
    ContinuedPiece(f.more);
    JoinPieces(line, Continued(f.more));
    assert FieldText(f)[0] == if f.key == "" then ':' else f.key[0];
  }

  lemma {:induction false} HeaderPiece(fields: seq<Field>)
    requires AllPlain(fields)
    ensures OnePiece(PrintHeader(fields))
    ensures fields != [] ==> PrintHeader(fields) != "" && PrintHeader(fields)[0] != '\n'
    decreases |fields|
  {
    if fields != [] {
      FieldPiece(fields[0]);
      if |fields| > 1 {
        HeaderPiece(fields[1..]);
        JoinPieces(FieldText(fields[0]), PrintHeader(fields[1..]));
      }
    }
  }

  /** Writing an assertion from its header entries, body and signature and parsing it gives all of them back. */
  lemma WrittenParse(fields: seq<Field>, body: string, signature: string)
    requires AllPlain(fields) && NoBlank(signature) && (signature == "" || signature[0] != '\n')
    ensures var head := PrintHeader(fields);
            Parse(Print(head, body, signature)) == Some(Assertion(Collect(map[], fields), body, Content(head, body), signature))
  {
    HeaderPiece(fields);
    HeaderRoundTrip(fields, map[]);
    PrintParse(PrintHeader(fields), body, signature);
  }

  // Checking signatures

  /** What is outside the code: downloads, key and signature decoding, the signature check itself,
      and the built-in root key. Keys and signatures are opaque texts here. */
  datatype Env = Env(
    download: string -> Option<Assertion>,
    decodeSignature: string -> Option<string>,
    decodeKey: string -> Option<string>,
    check: (string, string, string) -> bool,
    rootId: string,
    rootKey: string)

  type Cache = map<string, string>

  function SignKey(a: Assertion): string {
    if SIGN_KEY in a.header then a.header[SIGN_KEY] else ""
  }

  predicate Signs(env: Env, key: string, a: Assertion) {
    env.decodeSignature(a.signature).Some? && env.check(key, env.decodeSignature(a.signature).value, a.content)
  }

  /** Whether checking `a` has to look further than the built-in key. */
  predicate AsksForKey(env: Env, a: Assertion) {
    env.decodeSignature(a.signature).Some? && SignKey(a) != "" && SignKey(a) != env.rootId
  }

  /** Following signing keys from `a` ends within `n` downloads. */
  predicate EndsWithin(env: Env, a: Assertion, n: nat)
    decreases n
  {
    AsksForKey(env, a) ==>
      match env.download(SignKey(a))
      case None => true
      case Some(b) => n > 0 && EndsWithin(env, b, n - 1)
  }

  /** VerifySignature: whether the assertion is accepted, and the cache afterwards. */
  function Verify(env: Env, cache: Cache, a: Assertion, n: nat): (bool, Cache)
    requires EndsWithin(env, a, n)
    decreases n
  {
    if env.decodeSignature(a.signature).None? || SignKey(a) == "" then (false, cache)
    else if SignKey(a) in cache then (Signs(env, cache[SignKey(a)], a), cache)
    else if SignKey(a) == env.rootId then (Signs(env, env.rootKey, a), cache)
    else match env.download(SignKey(a))
      case None => (false, cache)
      case Some(b) =>
        var (ok, known) := Verify(env, cache, b, n - 1);
        if !ok || env.decodeKey(b.body).None? then (false, known)
        else
          var key := env.decodeKey(b.body).value;
          (Signs(env, key, a), known[SignKey(a) := key])
  }

  class AccountKeys {
    var cache: Cache

    constructor ()
      ensures cache == map[]
    {
      cache := map[];
    }

    method VerifySignature(env: Env, a: Assertion, ghost n: nat) returns (ok: bool)
      requires EndsWithin(env, a, n)
      modifies this
      ensures (ok, cache) == Verify(env, old(cache), a, n)
      decreases n
    {
      var signature := env.decodeSignature(a.signature);
      if signature == None {
        return false;
      }
      var signKey := SignKey(a);
      if signKey == "" {
        return false;
      }
      if signKey in cache {
        return env.check(cache[signKey], signature.value, a.content);
      }
      if signKey == env.rootId {
        return env.check(env.rootKey, signature.value, a.content);
      }
      var keyAssertion := env.download(signKey);
      if keyAssertion == None {
        return false;
      }
      var verified := VerifySignature(env, keyAssertion.value, n - 1);
      if !verified {
        return false;
      }
      var key := env.decodeKey(keyAssertion.value.body);
      if key == None {
        return false;
      }
      cache := cache[signKey := key.value];
      return env.check(key.value, signature.value, a.content);
    }
  }

  // The cache-free meaning: a chain of signatures up to the root

  /** `a` is signed by the key in `b`, the assertion served for the key its header names. */
  predicate Link(env: Env, a: Assertion, b: Assertion) {
    && "sign-key-sha3-384" in a.header
    && var id := a.header["sign-key-sha3-384"];
    && id != "" && id != env.rootId && env.download(id) == Some(b)
    && env.decodeKey(b.body).Some? && env.decodeSignature(a.signature).Some?
    && env.check(env.decodeKey(b.body).value, env.decodeSignature(a.signature).value, a.content)
  }

  /** `a` is signed by the root key, which its header names. */
  predicate RootSigned(env: Env, a: Assertion) {
    && "sign-key-sha3-384" in a.header
    && a.header["sign-key-sha3-384"] != "" && a.header["sign-key-sha3-384"] == env.rootId
    && env.decodeSignature(a.signature).Some?
    && env.check(env.rootKey, env.decodeSignature(a.signature).value, a.content)
  }

  predicate Chain(env: Env, chain: seq<Assertion>) {
    && |chain| > 0
    && (forall i | 0 <= i < |chain| - 1 :: Link(env, chain[i], chain[i + 1]))
    && RootSigned(env, chain[|chain| - 1])
  }

  ghost predicate Trusted(env: Env, a: Assertion) {
    exists chain: seq<Assertion> :: Chain(env, chain) && chain[0] == a
  }

  lemma ChainTail(env: Env, chain: seq<Assertion>)
    requires Chain(env, chain) && |chain| > 1
    ensures Link(env, chain[0], chain[1]) && Chain(env, chain[1..]) && chain[1..][0] == chain[1]
  {
    assert Link(env, chain[0], chain[0 + 1]);
    forall i | 0 <= i < |chain| - 2 ensures Link(env, chain[1..][i], chain[1..][i + 1]) {
      var k := i + 1;
      assert Link(env, chain[k], chain[k + 1]);
    }
  }

  lemma TrustedIff(env: Env, a: Assertion)
    ensures Trusted(env, a) <==>
            RootSigned(env, a) || exists b: Assertion :: Link(env, a, b) && Trusted(env, b)
  {
    if RootSigned(env, a) {
      assert Chain(env, [a]);
    }
    if Trusted(env, a) && !RootSigned(env, a) {
      var chain: seq<Assertion> :| Chain(env, chain) && chain[0] == a;
      ChainTail(env, chain);
      assert Trusted(env, chain[1]);
    }
    if b: Assertion :| Link(env, a, b) && Trusted(env, b) {
      var rest: seq<Assertion> :| Chain(env, rest) && rest[0] == b;
      LinkExtends(env, a, rest);
    }
  }

  lemma LinkExtends(env: Env, a: Assertion, rest: seq<Assertion>)
    requires Chain(env, rest) && Link(env, a, rest[0])
    ensures Trusted(env, a)
  {
    var chain := [a] + rest;
    forall i | 0 <= i < |chain| - 1 ensures Link(env, chain[i], chain[i + 1]) {
      if i > 0 {
        assert Link(env, rest[i - 1], rest[i]);
      }
    }
    assert Chain(env, chain) && chain[0] == a;
  }

  /** Every cached key came from a served account-key assertion that verifies up to the root, and
      the root key itself is never cached. */
  ghost predicate Sound(env: Env, cache: Cache) {
    forall k | k in cache :: SoundEntry(env, k, cache[k])
  }

  ghost predicate SoundEntry(env: Env, k: string, key: string) {
    && k != "" && k != env.rootId && env.download(k).Some?
    && env.decodeKey(env.download(k).value.body) == Some(key)
    && Trusted(env, env.download(k).value)
  }

  /** With any sound cache, an assertion is accepted exactly when a chain of signatures leads from
      it to the root key; the cache stays sound and forgets nothing. */
  lemma {:induction false} CachedAgrees(env: Env, cache: Cache, a: Assertion, n: nat)
    requires EndsWithin(env, a, n) && Sound(env, cache)
    ensures var (ok, after) := Verify(env, cache, a, n);
            && (ok <==> Trusted(env, a))
            && Sound(env, after)
            && forall k | k in cache :: k in after && after[k] == cache[k]
    decreases n
  {
    TrustedIff(env, a);
    if env.decodeSignature(a.signature).Some? && SignKey(a) != "" {
      if SignKey(a) in cache {
        assert SoundEntry(env, SignKey(a), cache[SignKey(a)]);
      } else if SignKey(a) != env.rootId && env.download(SignKey(a)).Some? {
        CachedAgrees(env, cache, env.download(SignKey(a)).value, n - 1);
      }
    }
  }

  /** The cache does not show: the answer with any two sound caches is the same. */
  lemma CacheInvisible(env: Env, cache: Cache, a: Assertion, n: nat)
    requires EndsWithin(env, a, n) && Sound(env, cache)
    ensures Verify(env, cache, a, n).0 == Verify(env, map[], a, n).0
  {
    CachedAgrees(env, cache, a, n);
    CachedAgrees(env, map[], a, n);
  }

  /** The cache after verifying a list of assertions, starting from the empty one. */
  function CacheAfter(env: Env, work: seq<(Assertion, nat)>): Cache
    requires forall i | 0 <= i < |work| :: EndsWithin(env, work[i].0, work[i].1)
  {
    if work == [] then map[]
    else
      var (a, n) := work[|work| - 1];
      Verify(env, CacheAfter(env, work[..|work| - 1]), a, n).1
  }

  /** Over the life of the process: whatever was verified before, the answer is the cache-free one. */
  lemma {:induction false} AlwaysAgrees(env: Env, work: seq<(Assertion, nat)>, a: Assertion, n: nat)
    requires forall i | 0 <= i < |work| :: EndsWithin(env, work[i].0, work[i].1)
    requires EndsWithin(env, a, n)
    ensures Sound(env, CacheAfter(env, work))
    ensures Verify(env, CacheAfter(env, work), a, n).0 <==> Trusted(env, a)
  {
    if work != [] {
      var (b, m) := work[|work| - 1];
      AlwaysAgrees(env, work[..|work| - 1], b, m);
      CachedAgrees(env, CacheAfter(env, work[..|work| - 1]), b, m);
    }
    CachedAgrees(env, CacheAfter(env, work), a, n);
  }

  /** Only assertions that are not trusted can have endless chains of keys. */
  lemma {:induction false} TrustedEnds(env: Env, chain: seq<Assertion>)
    requires Chain(env, chain)
    ensures EndsWithin(env, chain[0], |chain| - 1)
  {
    if |chain| > 1 {
      ChainTail(env, chain);
      TrustedEnds(env, chain[1..]);
    }
  }

  predicate NeedsOneOf(env: Env, a: Assertion, circle: set<Assertion>) {
    AsksForKey(env, a) && env.download(SignKey(a)).Some? && env.download(SignKey(a)).value in circle
  }

  /** Assertions each of which needs another one of them: following signing keys from any of them
      never ends. */
  lemma {:induction false} EndlessKeys(env: Env, circle: set<Assertion>, a: Assertion, n: nat)
    requires a in circle && forall b | b in circle :: NeedsOneOf(env, b, circle)
    ensures !EndsWithin(env, a, n)
    decreases n
  {
    assert NeedsOneOf(env, a, circle);
    if n > 0 {
      EndlessKeys(env, circle, env.download(SignKey(a)).value, n - 1);
    }
  }

  /** A key assertion served under the key it names itself: the code recurses without end. */
  lemma EndlessExample(env: Env, a: Assertion, n: nat)
    requires AsksForKey(env, a) && env.download(SignKey(a)) == Some(a)
    ensures !EndsWithin(env, a, n)
  {
    EndlessKeys(env, {a}, a, n);
  }

  // Verifications side by side

  /** One verification under way: the assertions being verified, each the key assertion of the one
      before, and the innermost one's answer once it has one. */
  datatype Thread = Thread(stack: seq<Assertion>, answer: Option<bool>)

  /** Verifications share one cache; each access to it is atomic. */
  datatype Pool = Pool(cache: Cache, threads: map<nat, Thread>)

  const IDLE_POOL := Pool(map[], map[])

  datatype Action = Begin(id: nat, a: Assertion) | Look(id: nat) | Return(id: nat)

  predicate CanAct(pool: Pool, action: Action) {
    match action
    case Begin(id, _) => id !in pool.threads
    case Look(id) => id in pool.threads && pool.threads[id].stack != [] && pool.threads[id].answer == None
    case Return(id) => id in pool.threads && |pool.threads[id].stack| > 1 && pool.threads[id].answer.Some?
  }

  /** The innermost verification up to its cache look-up, and past it: an answer, or a download. */
  function Looked(env: Env, cache: Cache, t: Thread): Thread
    requires t.stack != []
  {
    var a := t.stack[|t.stack| - 1];
    if env.decodeSignature(a.signature).None? || SignKey(a) == "" then t.(answer := Some(false))
    else if SignKey(a) in cache then t.(answer := Some(Signs(env, cache[SignKey(a)], a)))
    else if SignKey(a) == env.rootId then t.(answer := Some(Signs(env, env.rootKey, a)))
    else match env.download(SignKey(a))
      case None => t.(answer := Some(false))
      case Some(b) => t.(stack := t.stack + [b])
  }

  /** The verification around it, once the key assertion has its answer: the key is cached only if it
      is trusted and decodes. */
  function Returned(env: Env, cache: Cache, t: Thread): (Cache, Thread)
    requires |t.stack| > 1 && t.answer.Some?
  {
    var a, b := t.stack[|t.stack| - 2], t.stack[|t.stack| - 1];
    var rest := t.stack[..|t.stack| - 1];
    if !t.answer.value || env.decodeKey(b.body).None? then (cache, Thread(rest, Some(false)))
    else
      var key := env.decodeKey(b.body).value;
      (cache[SignKey(a) := key], Thread(rest, Some(Signs(env, key, a))))
  }

  function Act(env: Env, pool: Pool, action: Action): Pool
    requires CanAct(pool, action)
  {
    match action
    case Begin(id, a) => pool.(threads := pool.threads[id := Thread([a], None)])
    case Look(id) => pool.(threads := pool.threads[id := Looked(env, pool.cache, pool.threads[id])])
    case Return(id) =>
      var (cache, t) := Returned(env, pool.cache, pool.threads[id]);
      Pool(cache, pool.threads[id := t])
  }

  function PoolAfter(env: Env, actions: seq<Action>): Pool {
    if actions == [] then IDLE_POOL
    else
      var pool := PoolAfter(env, actions[..|actions| - 1]);
      if CanAct(pool, actions[|actions| - 1]) then Act(env, pool, actions[|actions| - 1]) else pool
  }

  /** `b` is what was downloaded to verify `a`. */
  predicate Fetches(env: Env, a: Assertion, b: Assertion) {
    AsksForKey(env, a) && env.download(SignKey(a)) == Some(b)
  }

  ghost predicate ThreadInv(env: Env, t: Thread) {
    && t.stack != []
    && (forall i | 0 <= i < |t.stack| - 1 :: Fetches(env, t.stack[i], t.stack[i + 1]))
    && (t.answer.Some? ==> (t.answer.value <==> Trusted(env, t.stack[|t.stack| - 1])))
  }

  ghost predicate PoolInv(env: Env, pool: Pool) {
    Sound(env, pool.cache) && forall id | id in pool.threads :: ThreadInv(env, pool.threads[id])
  }

  /** What the last verification of a thread answers at once is right. */
  lemma AnswerRight(env: Env, cache: Cache, a: Assertion)
    requires Sound(env, cache)
    ensures env.decodeSignature(a.signature).None? || SignKey(a) == "" ==> !Trusted(env, a)
    ensures env.decodeSignature(a.signature).Some? && SignKey(a) in cache ==> (Signs(env, cache[SignKey(a)], a) <==> Trusted(env, a))
    ensures env.decodeSignature(a.signature).Some? && SignKey(a) == env.rootId && env.rootId != "" ==> (Signs(env, env.rootKey, a) <==> Trusted(env, a))
    ensures AsksForKey(env, a) && env.download(SignKey(a)).None? ==> !Trusted(env, a)
  {
    TrustedIff(env, a);
    if SignKey(a) in cache {
      assert SoundEntry(env, SignKey(a), cache[SignKey(a)]);
    }
  }

  lemma LookRight(env: Env, cache: Cache, t: Thread)
    requires Sound(env, cache) && ThreadInv(env, t) && t.answer == None
    ensures ThreadInv(env, Looked(env, cache, t))
  {
    AnswerRight(env, cache, t.stack[|t.stack| - 1]);
  }

  lemma ReturnRight(env: Env, cache: Cache, t: Thread)
    requires Sound(env, cache) && ThreadInv(env, t) && |t.stack| > 1 && t.answer.Some?
    ensures Sound(env, Returned(env, cache, t).0) && ThreadInv(env, Returned(env, cache, t).1)
  {
    var k := |t.stack| - 2;
    var a, b := t.stack[k], t.stack[k + 1];
    assert Fetches(env, t.stack[k], t.stack[k + 1]);
    TrustedIff(env, a);
    var (cache', t') := Returned(env, cache, t);
    forall i | 0 <= i < |t'.stack| - 1 ensures Fetches(env, t'.stack[i], t'.stack[i + 1]) {
      assert Fetches(env, t.stack[i], t.stack[i + 1]);
    }
  }

  lemma {:induction false} PoolAlways(env: Env, actions: seq<Action>)
    ensures PoolInv(env, PoolAfter(env, actions))
  {
    if actions != [] {
      var n := |actions| - 1;
      var pool, action := PoolAfter(env, actions[..n]), actions[n];
      PoolAlways(env, actions[..n]);
      if CanAct(pool, action) {
        if action.Look? {
          LookRight(env, pool.cache, pool.threads[action.id]);
        } else if action.Return? {
          ReturnRight(env, pool.cache, pool.threads[action.id]);
        }
      }
    }
  }

  /** Action `k` begins verification `id`, with the assertion `a`. */
  predicate BeginsAt(actions: seq<Action>, k: nat, id: nat, a: Assertion) {
    && k < |actions| && actions[k] == Begin(id, a)
    && forall j | 0 <= j < k :: !(actions[j].Begin? && actions[j].id == id)
  }

  lemma {:induction false} NotBegun(env: Env, actions: seq<Action>, id: nat)
    requires forall j | 0 <= j < |actions| :: !(actions[j].Begin? && actions[j].id == id)
    ensures id !in PoolAfter(env, actions).threads
  {
    if actions != [] {
      NotBegun(env, actions[..|actions| - 1], id);
    }
  }

  /** A verification keeps the assertion it began with. */
  lemma {:induction false} SubjectKept(env: Env, actions: seq<Action>, k: nat, id: nat, a: Assertion)
    requires BeginsAt(actions, k, id, a)
    ensures id in PoolAfter(env, actions).threads
    ensures PoolAfter(env, actions).threads[id].stack != [] && PoolAfter(env, actions).threads[id].stack[0] == a
  {
    var n := |actions| - 1;
    if k == n {
      NotBegun(env, actions[..n], id);
    } else {
      SubjectKept(env, actions[..n], k, id, a);
    }
  }

  /** Whatever other verifications run beside it, and however their steps interleave: a verification
      that began with `a` and has its answer accepts exactly if `a` is trusted; and the cache is sound
      throughout. */
  lemma ConcurrentAgrees(env: Env, actions: seq<Action>, k: nat, id: nat, a: Assertion)
    requires BeginsAt(actions, k, id, a)
    ensures id in PoolAfter(env, actions).threads
    ensures var t := PoolAfter(env, actions).threads[id];
            |t.stack| == 1 && t.answer.Some? ==> (t.answer.value <==> Trusted(env, a))
    ensures Sound(env, PoolAfter(env, actions).cache)
  {
    SubjectKept(env, actions, k, id, a);
    PoolAlways(env, actions);
  }
}
