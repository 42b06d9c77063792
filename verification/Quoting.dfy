/** What is written for a shell to read: words quoted whole, and the command of a listing's next page. */
module Quoting {
  import opened Options
  import opened Names

  // ---- the shell's reading of a line ----------------------------------------------------------

  const Nul: char := '\0'

  datatype Mode = Unquoted | Quoted | Escaped

  /** How far a shell has read a line: the words done and the one begun, or a line that is no
      plain list of words. */
  datatype Reading =
    | At(mode: Mode, word: Option<string>, done: seq<string>)
    | NotWords

  predicate Blank(c: char) { c == ' ' || c == '\t' }

  /** The characters the Shell Command Language, section 2.2, has quoted if they are to stand
      for themselves: outside quotes each means more than itself. */
  predicate Special(c: char) {
    || c == '|' || c == '&' || c == ';' || c == '<' || c == '>' || c == '(' || c == ')' || c == '$' || c == '`'
    || c == '\"' || c == '*' || c == '?' || c == '[' || c == '#' || c == '~' || c == '\n'
  }

  function Text(word: Option<string>): string {
    if word.Some? then word.value else ""
  }

  function Ended(word: Option<string>, done: seq<string>): seq<string> {
    if word.Some? then done + [word.value] else done
  }

  /** One character read: section 2.2.1, a backslash keeps the next character as it is, unless
      that ends the line and both go; section 2.2.2, single quotes keep every character between them. */
  function Step(at: Reading, c: char): Reading {
    if at.NotWords? || c == Nul then NotWords
    else match at.mode
      case Quoted =>
        if c == '\'' then At(Unquoted, at.word, at.done)
        else At(Quoted, Some(Text(at.word) + [c]), at.done)
      case Escaped =>
        if c == '\n' then At(Unquoted, at.word, at.done)
        else At(Unquoted, Some(Text(at.word) + [c]), at.done)
      case Unquoted =>
        if Blank(c) then At(Unquoted, None, Ended(at.word, at.done))
        else if c == '\'' then At(Quoted, Some(Text(at.word)), at.done)
        else if c == '\\' then At(Escaped, at.word, at.done)
        else if Special(c) then NotWords
        else At(Unquoted, Some(Text(at.word) + [c]), at.done)
  }

  function Read(line: string, at: Reading): Reading {
    if line == "" then at else Read(line[1..], Step(at, line[0]))
  }

  const Start := At(Unquoted, None, [])

  /** The words a shell takes a line for, if it takes it for words alone. */
  function Words(line: string): Option<seq<string>> {
    var at := Read(line, Start);
    if at.NotWords? || at.mode != Unquoted then None else Some(Ended(at.word, at.done))
  }

  lemma {:induction false} ReadJoins(a: string, b: string, at: Reading)
    ensures Read(a + b, at) == Read(b, Read(a, at))
  {
    if a == "" {
      assert a + b == b;
    } else {
      assert (a + b)[1..] == a[1..] + b;
      ReadJoins(a[1..], b, Step(at, a[0]));
    }
  }

  lemma ReadOne(c: char, rest: string, at: Reading)
    ensures Read([c] + rest, at) == Read(rest, Step(at, c)) && Read([c], at) == Step(at, c) && Read("", at) == at
  {
    assert ([c] + rest)[1..] == rest && [c][1..] == "";
    assert Read([c], at) == Read([c][1..], Step(at, c));
  }

  lemma {:induction false} NotWordsStays(line: string)
    ensures Read(line, NotWords) == NotWords
  {
    if line != "" { NotWordsStays(line[1..]); }
  }

  lemma {:induction false} NulIsNoWord(line: string, at: Reading)
    requires Nul in line
    ensures Read(line, at) == NotWords
  {
    if line[0] == Nul { NotWordsStays(line[1..]); } else { NulIsNoWord(line[1..], Step(at, line[0])); }
  }

  // ---- one word quoted -------------------------------------------------------------------------

  /** s with each single quote closed, escaped and opened again. */
  function Requoted(s: string): string {
    if s == "" then ""
    else (if s[0] == '\'' then "'\\''" else [s[0]]) + Requoted(s[1..])
  }

  function ShellQuote(s: string): string { "'" + Requoted(s) + "'" }

  predicate Plain(c: char) {
    || 'a' <= c <= 'z' || 'A' <= c <= 'Z' || '0' <= c <= '9'
    || c == '-' || c == '_' || c == '.' || c == ':' || c == '@' || c == '+' || c == '/' || c == '=' || c == ',' || c == '%'
  }

  predicate AllPlain(s: string) { forall i :: 0 <= i < |s| ==> Plain(s[i]) }

  /** A value left as it is where a shell reads nothing of it specially, and quoted otherwise. */
  function ShellWord(value: string): string {
    if value != "" && AllPlain(value) then value else "'" + Requoted(value) + "'"
  }

  lemma OneRequoted(c: char, rest: string, word: string, done: seq<string>)
    requires c != Nul
    ensures Read((if c == '\'' then "'\\''" else [c]) + rest, At(Quoted, Some(word), done))
         == Read(rest, At(Quoted, Some(word + [c]), done))
  {
    hide Read;
    var at := At(Quoted, Some(word), done);
    ReadOne(c, rest, at);
    if c == '\'' {
      assert "'\\''" + rest == ['\''] + (['\\'] + (['\''] + (['\''] + rest)));
      ReadOne('\'', ['\\'] + (['\''] + (['\''] + rest)), at);
      ReadOne('\\', ['\''] + (['\''] + rest), At(Unquoted, Some(word), done));
      ReadOne('\'', ['\''] + rest, At(Escaped, Some(word), done));
      ReadOne('\'', rest, At(Unquoted, Some(word + [c]), done));
    }
  }

  lemma {:induction false} RequotedReads(s: string, word: string, done: seq<string>)
    requires Nul !in s
    ensures Read(Requoted(s) + "'", At(Quoted, Some(word), done)) == At(Unquoted, Some(word + s), done)
  {
    hide Read;
    if s == "" {
      assert word + s == word;
      assert Requoted(s) + "'" == ['\''];
      ReadOne('\'', "", At(Quoted, Some(word), done));
    } else {
      var first := if s[0] == '\'' then "'\\''" else [s[0]];
      assert Requoted(s) + "'" == first + (Requoted(s[1..]) + "'");
      OneRequoted(s[0], Requoted(s[1..]) + "'", word, done);
      assert (word + [s[0]]) + s[1..] == word + s;
      RequotedReads(s[1..], word + [s[0]], done);
    }
  }

  lemma PlainStep(c: char, word: Option<string>, done: seq<string>)
    requires Plain(c)
    ensures Step(At(Unquoted, word, done), c) == At(Unquoted, Some(Text(word) + [c]), done) && c != Nul
  {
  }

  lemma {:induction false} PlainReads(s: string, word: Option<string>, done: seq<string>)
    requires AllPlain(s)
    ensures Read(s, At(Unquoted, word, done)) == At(Unquoted, if s == "" then word else Some(Text(word) + s), done)
  {
    hide Plain, Step;
    if s != "" {
      assert Plain(s[0]);
      PlainStep(s[0], word, done);
      var next := Text(word) + [s[0]];
      assert next + s[1..] == Text(word) + s;
      if s[1..] == "" { assert next == Text(word) + s; }
      PlainReads(s[1..], Some(next), done);
    }
  }

  /** Anywhere a word may begin, a string quoted is read as that word, begun and whole. */
  lemma QuotedReads(s: string, done: seq<string>)
    requires Nul !in s
    ensures Read(ShellQuote(s), At(Unquoted, None, done)) == At(Unquoted, Some(s), done)
    ensures Read(ShellWord(s), At(Unquoted, None, done)) == At(Unquoted, Some(s), done)
  {
    hide Read, Plain;
    assert ShellQuote(s) == ['\''] + (Requoted(s) + "'");
    ReadOne('\'', Requoted(s) + "'", At(Unquoted, None, done));
    RequotedReads(s, "", done);
    assert "" + s == s;
    if AllPlain(s) {
      PlainReads(s, None, done);
    }
  }

  lemma {:induction false} RequotedKeepsNul(s: string)
    ensures Nul in Requoted(s) <==> Nul in s
  {
    if s != "" { RequotedKeepsNul(s[1..]); }
  }

  /** A string quoted is exactly one word, itself, unless no word can hold it. */
  lemma QuotedIsOneWord(s: string)
    ensures Words(ShellQuote(s)) == if Nul in s then None else Some([s])
    ensures Words(ShellWord(s)) == if Nul in s then None else Some([s])
  {
    if Nul in s {
      RequotedKeepsNul(s);
      NulIsNoWord(ShellQuote(s), Start);
      NulIsNoWord(ShellWord(s), Start);
    } else {
      hide Read, Requoted, ShellQuote, ShellWord;
      QuotedReads(s, []);
      assert [] + [s] == [s];
    }
  }

  function CredentialHelper(self: string): string { "!" + ShellQuote(self) + " code credential" }

  /** A line read as these words, the last of them still open. */
  ghost predicate ReadsAs(line: string, words: seq<string>) {
    words != [] && Read(line, Start) == At(Unquoted, Some(words[|words| - 1]), words[..|words| - 1])
  }

  lemma ReadsAsWords(line: string, words: seq<string>)
    requires ReadsAs(line, words)
    ensures Words(line) == Some(words)
  {
    assert words[..|words| - 1] + [words[|words| - 1]] == words;
  }

  /** After a word, a blank and the next one. */
  lemma NextReads(line: string, words: seq<string>, next: string, written: string)
    requires ReadsAs(line, words) && Nul !in next && (written == ShellQuote(next) || written == ShellWord(next))
    ensures ReadsAs(line + " " + written, words + [next])
  {
    hide Read;
    var at := At(Unquoted, Some(words[|words| - 1]), words[..|words| - 1]);
    assert line + " " + written == line + ([' '] + written);
    ReadJoins(line, [' '] + written, Start);
    ReadOne(' ', written, at);
    assert words[..|words| - 1] + [words[|words| - 1]] == words;
    QuotedReads(next, words);
    assert (words + [next])[..|words|] == words;
  }

  lemma PlainIsItself(s: string)
    requires AllPlain(s)
    ensures Nul !in s && (s != "" ==> ShellWord(s) == s)
  {
  }

  /** After a word, a blank and one left as it is. */
  lemma PlainNextReads(line: string, words: seq<string>, next: string)
    requires ReadsAs(line, words) && next != "" && AllPlain(next)
    ensures ReadsAs(line + " " + next, words + [next])
  {
    hide ReadsAs;
    PlainIsItself(next);
    NextReads(line, words, next, next);
  }

  /** The helper git hands its shell runs this binary, wherever it is, with two arguments. */
  lemma CredentialHelperRunsThis(self: string)
    requires Nul !in self
    ensures CredentialHelper(self) != "" && Words(CredentialHelper(self)[1..]) == Some([self, "code", "credential"])
  {
    hide Read, Requoted, Words;
    var line := ShellQuote(self);
    QuotedReads(self, []);
    assert ReadsAs(line, [self]);
    hide ReadsAs, ShellWord;
    PlainNextReads(line, [self], "code");
    PlainNextReads(line + " " + "code", [self] + ["code"], "credential");
    hide AllPlain;
    ReadsAsWords(line + " " + "code" + " " + "credential", [self] + ["code"] + ["credential"]);
    HelperLine(line);
    assert [self] + ["code"] + ["credential"] == [self, "code", "credential"];
  }

  lemma HelperLine(line: string)
    ensures ("!" + line + " code credential")[1..] == line + " " + "code" + " " + "credential"
  {
    assert " code credential" == " code" + " credential";
    assert "!" + line + " code credential" == "!" + (line + " code" + " credential");
    assert line + " code" == line + " " + "code";
    var more := line + " code";
    assert more + " credential" == more + " " + "credential";
  }

  // ---- a listing's next page --------------------------------------------------------------------

  type Query = map<Name, seq<string>>

  /** A query's value of a name: its first, or nothing. */
  function First(query: Query, name: Name): string {
    if name in query && query[name] != [] then query[name][0] else ""
  }

  /** Query names written without a value. */
  predicate Bare(name: Name) { name == "all" }

  /** The flags every subcommand reads: those that take no word after them, and those that take
      a number and a text. */
  predicate Switch(name: Name) { name == "json" || name == "all" || name == "unheld" }

  predicate Number(name: Name) { name == "limit" || name == "days" || name == "since" || name == "before" }

  predicate IsFlag(name: Name) {
    || Switch(name) || Number(name)
    || name in {"config", "api", "reason", "grants", "stage", "q", "login", "email", "kind", "name", "person",
                "label", "event", "after", "at", "op-id", "seat"}
  }

  /** What each listing sends of its flags, and the one that moves its page. */
  function Params(sub: string): set<Name> {
    if sub == "people" then {"q", "stage", "after", "limit"}
    else if sub == "invitations" then {"after", "all", "limit"}
    else if sub == "audit" then {"person", "event", "at", "since", "before", "limit"}
    else {}
  }

  function Cursor(sub: string): Name { if sub == "audit" then "before" else "after" }

  predicate IsNumber(value: string) {
    value != "" && value[0] != '0' && forall i :: 0 <= i < |value| ==> '0' <= value[i] <= '9'
  }

  /** A flag's value that is sent: a text with more than white space, a number that is not zero,
      and a switch that is on. */
  predicate Sent(name: Name, value: string) {
    if Switch(name) then value == "true"
    else if Number(name) then IsNumber(value)
    else exists i :: 0 <= i < |value| && value[i] !in " \t\n\r"
  }

  /** The flags as the flag package reads them: a dash or two, a name, and a value after an
      equals sign or in the next word, which a switch takes none of. The flags end at the first
      word that is none. */
  function ParseFlags(args: seq<string>, flags: map<Name, string>): Option<(map<Name, string>, seq<string>)>
    decreases |args|, 0
  {
    if args == [] || |args[0]| < 2 || args[0][0] != '-' then Some((flags, args))
    else if args[0] == "--" then Some((flags, args[1..]))
    else
      var written := if args[0][1] == '-' then args[0][2..] else args[0][1..];
      var cut := EqualsAt(written);
      var name := written[..cut];
      if name == "" || name[0] == '-' || !IsFlag(name) then None
      else if cut < |written| then SetFlag(args[1..], flags, name, written[cut + 1..])
      else if Switch(name) then SetFlag(args[1..], flags, name, "true")
      else if |args| == 1 then None
      else SetFlag(args[2..], flags, name, args[1])
  }

  function SetFlag(args: seq<string>, flags: map<Name, string>, name: Name, value: string): Option<(map<Name, string>, seq<string>)>
    decreases |args|, 1
  {
    if Switch(name) && value != "true" && value != "false" then None
    else if Number(name) && value != "0" && !IsNumber(value) then None
    else ParseFlags(args, flags[name := value])
  }

  function EqualsAt(s: string): (i: nat)
    ensures i <= |s|
  {
    if s == "" || s[0] == '=' then 0 else 1 + EqualsAt(s[1..])
  }

  /** The query a listing asks under these flags. */
  function Asks(sub: string, flags: map<Name, string>): Query {
    map n | n in Params(sub) && n in flags && Sent(n, flags[n]) :: [flags[n]]
  }

  /** The query a shell and the flag package read a listing's command line as. */
  function AsksOf(line: string): Option<Query> {
    var words := Words(line);
    if words.None? || |words.value| < 3 || words.value[..2] != ["crewlet", "iam"] then None
    else
      var parsed := ParseFlags(words.value[3..], map[]);
      if parsed.None? || parsed.value.1 != [] then None else Some(Asks(words.value[2], parsed.value.0))
  }

  /** A line with a parameter written after it, and its words with the parameter's. */
  function WithFlag(line: string, name: Name, value: string): string {
    if Bare(name) then line + " -" + name else line + " -" + name + " " + ShellWord(value)
  }

  function FlagOf(name: Name, value: string): seq<string> {
    if Bare(name) then ["-" + name] else ["-" + name, value]
  }

  function WithFlags(line: string, names: seq<Name>, query: Query): string
    decreases |names|
  {
    if names == [] then line else WithFlags(WithFlag(line, names[0], First(query, names[0])), names[1..], query)
  }

  function FlagWords(names: seq<Name>, query: Query): seq<string> {
    if names == [] then [] else FlagOf(names[0], First(query, names[0])) + FlagWords(names[1..], query)
  }

  lemma {:induction false} OneMoreFlag(line: string, names: seq<Name>, name: Name, query: Query)
    ensures WithFlags(line, names + [name], query) == WithFlag(WithFlags(line, names, query), name, First(query, name))
    decreases |names|
  {
    hide WithFlag, First;
    if names == [] {
      assert WithFlags(line, [name], query) == WithFlags(WithFlag(line, name, First(query, name)), [name][1..], query);
    } else {
      assert (names + [name])[1..] == names[1..] + [name];
      OneMoreFlag(WithFlag(line, names[0], First(query, names[0])), names[1..], name, query);
    }
  }

  /** A query this listing sends: of each name the first value is one its flag sends and an argument can hold. */
  predicate Sendable(sub: string, query: Query) {
    forall n :: n in query ==> n in Params(sub) && query[n] != [] && Sent(n, query[n][0]) && Nul !in query[n][0]
  }

  /** Of each name its first value, which is what a query's reader takes. */
  ghost function Firsts(query: Query): Query {
    map n | n in query && query[n] != [] :: [query[n][0]]
  }

  lemma FirstsOfOne(query: Query)
    requires forall n :: n in query ==> |query[n]| == 1
    ensures Firsts(query) == query
  {
    forall n | n in query ensures query[n] == [query[n][0]] {
    }
  }

  lemma {:induction false} NoEquals(s: string)
    requires '=' !in s
    ensures EqualsAt(s) == |s|
  {
    if s != "" { NoEquals(s[1..]); }
  }

  /** A listing's parameters are flags of the same name. */
  lemma ParamsAreFlags(sub: string, name: Name)
    requires name in Params(sub)
    ensures AllPlain(name) && name != "" && name[0] != '-' && '=' !in name
    ensures IsFlag(name) && (Switch(name) <==> Bare(name))
  {
  }

  function Values(names: seq<Name>, query: Query): map<Name, string> {
    map n | n in names :: First(query, n)
  }

  /** A listing's parameter written bare or before its value is read as that flag. */
  lemma OneFlagParses(sub: string, n: Name, value: string, rest: seq<string>, flags: map<Name, string>)
    requires n in Params(sub) && Sent(n, value)
    ensures ParseFlags(FlagOf(n, value) + rest, flags)
         == ParseFlags(rest, flags[n := value])
  {
    ParamsAreFlags(sub, n);
    hide Params, AllPlain, IsFlag, Switch, Bare, Number;
    NoEquals(n);
    hide EqualsAt;
    var args := FlagOf(n, value) + rest;
    assert args[0] == "-" + n && args[0][1] == n[0] && args[0][1..] == n && n[..|n|] == n;
    if Bare(n) {
      assert args[1..] == rest;
    } else {
      assert args[2..] == rest && args[1] == value;
    }
  }

  lemma ValuesStep(names: seq<Name>, query: Query, flags: map<Name, string>)
    ensures names == [] ==> flags + Values(names, query) == flags
    ensures names != [] ==>
      flags[names[0] := First(query, names[0])] + Values(names[1..], query) == flags + Values(names, query)
  {
    hide First;
    if names != [] {
      assert names == [names[0]] + names[1..];
    }
  }

  /** The words written for the names asked are read as a flag each, and nothing is left over. */
  lemma {:induction false} FlagWordsParse(sub: string, names: seq<Name>, query: Query, flags: map<Name, string>)
    requires Sendable(sub, query) && forall n :: n in names ==> n in query
    ensures ParseFlags(FlagWords(names, query), flags) == Some((flags + Values(names, query), []))
  {
    ValuesStep(names, query, flags);
    hide Values;
    if names != [] {
      hide ParseFlags, Params, Sent, FlagOf;
      var n := names[0];
      var value := First(query, n);
      assert n in names;
      OneFlagParses(sub, n, value, FlagWords(names[1..], query), flags);
      FlagWordsParse(sub, names[1..], query, flags[n := value]);
    }
  }

  lemma DashIsOneWord(line: string, n: Name)
    ensures line + " -" + n == line + " " + ("-" + n)
  {
  }

  /** A shell reads what is written for a parameter as its words. */
  lemma OneFlagReads(sub: string, n: Name, value: string, line: string, words: seq<string>)
    requires n in Params(sub) && Nul !in value && ReadsAs(line, words)
    ensures ReadsAs(WithFlag(line, n, value), words + FlagOf(n, value))
  {
    ParamsAreFlags(sub, n);
    hide Params, ReadsAs, Read, IsFlag, Switch, Bare, ShellWord;
    DashIsOneWord(line, n);
    assert AllPlain("-" + n);
    hide AllPlain;
    PlainNextReads(line, words, "-" + n);
    if !Bare(n) {
      NextReads(line + " -" + n, words + ["-" + n], value, ShellWord(value));
      assert words + FlagOf(n, value) == words + ["-" + n] + [value];
    }
  }

  /** And what is written for all of them as all of theirs. */
  lemma {:induction false} FlagsRead(sub: string, names: seq<Name>, query: Query, line: string, words: seq<string>)
    requires Sendable(sub, query) && (forall n :: n in names ==> n in query) && ReadsAs(line, words)
    ensures ReadsAs(WithFlags(line, names, query), words + FlagWords(names, query))
  {
    hide ReadsAs, Params, Sent, FlagOf, WithFlag;
    if names == [] {
      assert words + [] == words;
    } else {
      var n := names[0];
      var value := First(query, n);
      assert n in names;
      OneFlagReads(sub, n, value, line, words);
      FlagsRead(sub, names[1..], query, WithFlag(line, n, value), words + FlagOf(n, value));
      assert words + FlagWords(names, query) == words + FlagOf(n, value) + FlagWords(names[1..], query);
    }
  }

  /** A listing's command line up to its flags. */
  function Listing(sub: string): string { "crewlet iam " + sub }

  lemma ListingReads(sub: string)
    requires Params(sub) != {}
    ensures ReadsAs(Listing(sub), ["crewlet", "iam", sub])
  {
    assert AllPlain(sub) && sub != "";
    hide Params, Plain, AllPlain;
    assert Listing(sub) == "crewlet" + " " + "iam" + " " + sub;
    hide Listing;
    StartReads();
    hide ReadsAs, Read;
    PlainNextReads("crewlet" + " " + "iam", ["crewlet"] + ["iam"], sub);
    assert ["crewlet"] + ["iam"] + [sub] == ["crewlet", "iam", sub];
  }

  lemma StartReads()
    ensures ReadsAs("crewlet" + " " + "iam", ["crewlet"] + ["iam"])
  {
    PlainIsItself("crewlet");
    assert ReadsAs("crewlet", ["crewlet"]) by { QuotedReads("crewlet", []); }
    hide ReadsAs, Read;
    PlainNextReads("crewlet", ["crewlet"], "iam");
  }

  /** The line for a query this listing sends, pasted into a shell, asks that query again: of each name
      its first value. */
  lemma LineAsksTheQuery(sub: string, names: seq<Name>, query: Query)
    requires Params(sub) != {} && Sendable(sub, query) && forall n :: n in names <==> n in query
    ensures AsksOf(WithFlags(Listing(sub), names, query)) == Some(Firsts(query))
  {
    hide Params, Sent, AsksOf, ParseFlags, Words;
    var words := ["crewlet", "iam", sub];
    ListingReads(sub);
    FlagsRead(sub, names, query, Listing(sub), words);
    hide ReadsAs, WithFlags;
    ReadsAsWords(WithFlags(Listing(sub), names, query), words + FlagWords(names, query));
    FlagWordsParse(sub, names, query, map[]);
    hide FlagWords;
    assert map[] + Values(names, query) == Values(names, query);
    ValuesAsk(sub, names, query);
    ArgumentsAsk(WithFlags(Listing(sub), names, query), sub, FlagWords(names, query), Values(names, query));
  }

  lemma ArgumentsAsk(line: string, sub: string, args: seq<string>, flags: map<Name, string>)
    requires Words(line) == Some(["crewlet", "iam", sub] + args) && ParseFlags(args, map[]) == Some((flags, []))
    ensures AsksOf(line) == Some(Asks(sub, flags))
  {
    hide Words, ParseFlags;
    var all := ["crewlet", "iam", sub] + args;
    assert all[3..] == args && all[..2] == ["crewlet", "iam"] && all[2] == sub;
  }

  lemma ValuesAsk(sub: string, names: seq<Name>, query: Query)
    requires Sendable(sub, query) && forall n :: n in names <==> n in query
    ensures Asks(sub, Values(names, query)) == Firsts(query)
  {
    hide Params, Sent;
  }

  lemma MovedIsSendable(sub: string, asked: Query, cursor: Name, next: string)
    requires Params(sub) != {} && cursor == Cursor(sub) && Sendable(sub, asked) && Sent(cursor, next) && Nul !in next
    ensures Sendable(sub, asked[cursor := [next]])
  {
    assert cursor in Params(sub);
    hide Sent, Params;
  }

  method SortedKeys(query: Query) returns (names: seq<Name>)
    ensures Ascending(names) && forall n :: n in names <==> n in query
  {
    var keys: seq<Name> := [];
    var rest := query.Keys;
    while rest != {}
      invariant rest <= query.Keys && forall n :: n in query <==> n in rest || n in keys
    {
      var n :| n in rest;
      keys, rest := keys + [n], rest - {n};
    }
    SortedIs(keys);
    names := Sorted(keys);
  }

  /** Writes one flag per query name in ascending order, so the line is a function of the query;
      read back by shell and flag parser it is the query with the cursor replaced. */
  method More(sub: string, asked: Query, cursor: Name, next: string) returns (line: string, names: seq<Name>)
    ensures Ascending(names) && forall n :: n in names <==> n in asked || n == cursor
    ensures line == WithFlags(Listing(sub), names, asked[cursor := [next]])
    ensures Params(sub) != {} && cursor == Cursor(sub) && Sendable(sub, asked) && Sent(cursor, next) && Nul !in next ==>
      AsksOf(line) == Some(Firsts(asked[cursor := [next]]))
    // A query of one value each is asked again whole.
    ensures (forall n :: n in asked ==> |asked[n]| == 1) ==> Firsts(asked[cursor := [next]]) == asked[cursor := [next]]
  {
    hide AsksOf, Listing, Params, Cursor, Sendable, Sent, IsFlag, Bare, ShellWord;
    var again := asked[cursor := [next]];
    if forall n :: n in asked ==> |asked[n]| == 1 {
      FirstsOfOne(again);
    }
    names := SortedKeys(again);
    line := Listing(sub);
    for i := 0 to |names|
      invariant line == WithFlags(Listing(sub), names[..i], again)
    {
      hide WithFlags, First;
      assert names[..i + 1] == names[..i] + [names[i]];
      OneMoreFlag(Listing(sub), names[..i], names[i], again);
      line := line + " -" + names[i];
      if !Bare(names[i]) {
        line := line + " " + ShellWord(First(again, names[i]));
      }
    }
    hide WithFlags;
    assert names[..|names|] == names;
    if Params(sub) != {} && cursor == Cursor(sub) && Sendable(sub, asked) && Sent(cursor, next) && Nul !in next {
      MovedIsSendable(sub, asked, cursor, next);
      LineAsksTheQuery(sub, names, again);
    }
  }
}
