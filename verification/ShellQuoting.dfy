/**
 Nested shell quoting of scripts/run-bdd-docker.js, read back by the token rules of the Shell
 Command Language (section 2.2 and 2.3 of POSIX.1-2017): single quotes, backslash, blanks and `&&`.
 */
module ShellQuoting {
  import opened Common

  // ----- The shell's reading ---------------------------------------------------------------------

  /** Tokens before any expansion. */
  datatype Token = Word(text: string) | AndIf

  datatype Mode = Plain | Quoted | Escaped | Ampersand

  /** `word` is the word being read, if one has started; `broken` marks text outside this fragment. */
  datatype Reader = Reader(tokens: seq<Token>, word: Option<string>, mode: Mode, broken: bool)

  const START := Reader([], None, Plain, false)

  /** Characters with no meaning to the shell outside quotes, before expansions. */
  predicate IsPlain(c: char) {
    'a' <= c <= 'z' || 'A' <= c <= 'Z' || '0' <= c <= '9'
    || c == '_' || c == '-' || c == '.' || c == '/' || c == ':' || c == '=' || c == '$' || c == '@' || c == ','
      || c == '+' || c == '%'
  }

  function Soon(word: Option<string>): string {
    if word.Some? then word.value else ""
  }

  function EndWord(r: Reader): Reader {
    if r.word.Some? then r.(tokens := r.tokens + [Word(r.word.value)], word := None) else r
  }

  function Add(r: Reader, c: char): Reader {
    r.(word := Some(Soon(r.word) + [c]))
  }

  /** One character. */
  function Read(r: Reader, c: char): Reader {
    match r.mode
    case Quoted => if c == '\'' then r.(mode := Plain) else Add(r, c)
    case Escaped => if c == '\n' then r.(mode := Plain) else Add(r, c).(mode := Plain)
    case Ampersand =>
      if c == '&' then Reader(r.tokens + [AndIf], None, Plain, r.broken) else r.(broken := true)
    case Plain =>
      if c == '\'' then r.(word := Some(Soon(r.word)), mode := Quoted)
      else if c == '\\' then r.(mode := Escaped)
      else if c == ' ' || c == '\t' then EndWord(r)
      else if c == '&' then EndWord(r).(mode := Ampersand)
      else if IsPlain(c) then Add(r, c)
      else r.(broken := true)
  }

  function ReadAll(r: Reader, text: string): Reader {
    if text == "" then r else Read(ReadAll(r, text[..|text| - 1]), text[|text| - 1])
  }

  /** The tokens of a command, when it stays inside the fragment. */
  function Tokens(text: string): Option<seq<Token>> {
    var r := ReadAll(START, text);
    if r.mode.Plain? && !r.broken then Some(EndWord(r).tokens) else None
  }

  lemma {:induction false} ReadAppend(r: Reader, a: string, b: string)
    ensures ReadAll(r, a + b) == ReadAll(ReadAll(r, a), b)
  {
    if b == "" {
      AddNothing(a);
    } else {
      assert (a + b)[..|a + b| - 1] == a + b[..|b| - 1];
      ReadAppend(r, a, b[..|b| - 1]);
    }
  }

  lemma {:induction false} ReadOne(r: Reader, c: char)
    ensures ReadAll(r, [c]) == Read(r, c)
  {
    assert [c][..0] == "";
  }

  // ----- Quoting ------------------------------------------------------------------------------------

  /** Every quote replaced by `'\''`. */
  function Inner(s: string): string {
    if s == "" then ""
    else Inner(s[..|s| - 1]) + if s[|s| - 1] == '\'' then ['\'', '\\', '\'', '\''] else [s[|s| - 1]]
  }

  /** `shellEscape`. */
  function ShellEscape(s: string): string {
    ['\''] + Inner(s) + ['\'']
  }

  lemma {:induction false} ReadQuote(r: Reader)
    requires r.mode.Quoted? && r.word.Some?
    ensures ReadAll(r, ['\'', '\\', '\'', '\'']) == Add(r, '\'')
  {
    var back := ReadAll(r, ['\'', '\\']);
    ReadTwo(r, '\'', '\\');
    ReadTwo(back, '\'', '\'');
    ReadAppend(r, ['\'', '\\'], ['\'', '\'']);
    assert ['\'', '\\'] + ['\'', '\''] == ['\'', '\\', '\'', '\''];
  }

  lemma {:induction false} ReadTwo(r: Reader, a: char, b: char)
    ensures ReadAll(r, [a, b]) == Read(Read(r, a), b)
  {
    assert [a, b][..1] == [a];
    ReadOne(r, a);
  }

  lemma {:induction false} ReadInner(r: Reader, s: string)
    requires r.mode.Quoted? && r.word.Some?
    ensures ReadAll(r, Inner(s)) == r.(word := Some(r.word.value + s))
  {
    if s == "" {
      AddNothing(r.word.value);
    } else {
      var front, last := s[..|s| - 1], s[|s| - 1];
      ReadInner(r, front);
      var before := ReadAll(r, Inner(front));
      ReadAppend(r, Inner(front), if last == '\'' then ['\'', '\\', '\'', '\''] else [last]);
      ReadQuote(before);
      ReadOne(before, last);
      FrontAndLast(s);
      Associate(r.word.value, front, [last]);
    }
  }

  /** A quoted string adds itself, whatever it holds, to the word being read. */
  lemma {:induction false} ReadEscaped(r: Reader, s: string)
    requires r.mode.Plain?
    ensures ReadAll(r, ShellEscape(s)) == r.(word := Some(Soon(r.word) + s))
  {
    var open := Read(r, '\'');
    ReadAppend(r, ['\''] + Inner(s), ['\'']);
    ReadAppend(r, ['\''], Inner(s));
    ReadOne(r, '\'');
    ReadInner(open, s);
    ReadOne(open.(word := Some(Soon(r.word) + s)), '\'');
  }

  // ----- Commands ------------------------------------------------------------------------------------

  /** A piece of a command line: a plain word, a quoted word, or `&&`. */
  datatype Piece = Bare(text: string) | Quote(text: string) | And

  predicate IsPlainWord(s: string) {
    s != "" && forall i :: 0 <= i < |s| ==> IsPlain(s[i])
  }

  predicate Writable(pieces: seq<Piece>) {
    forall i :: 0 <= i < |pieces| && pieces[i].Bare? ==> IsPlainWord(pieces[i].text)
  }

  function Print(piece: Piece): string {
    match piece
    case Bare(text) => text
    case Quote(text) => ShellEscape(text)
    case And => "&&"
  }

  /** The pieces separated by single spaces. */
  function Line(pieces: seq<Piece>): string {
    if pieces == [] then ""
    else if |pieces| == 1 then Print(pieces[0])
    else Line(pieces[..|pieces| - 1]) + [' '] + Print(pieces[|pieces| - 1])
  }

  function Meaning(pieces: seq<Piece>): seq<Token> {
    if pieces == [] then []
    else
      Meaning(pieces[..|pieces| - 1])
      + [match pieces[|pieces| - 1] case And => AndIf case p => Word(p.text)]
  }

  lemma {:induction false} ReadBare(r: Reader, s: string)
    requires r.mode.Plain? && r.word.None? && s != "" && forall i :: 0 <= i < |s| ==> IsPlain(s[i])
    ensures ReadAll(r, s) == r.(word := Some(s))
  {
    var front, last := s[..|s| - 1], s[|s| - 1];
    assert IsPlain(last);
    FrontAndLast(s);
    if front == "" {
      assert s == [last] && Soon(r.word) + [last] == [last];
    } else {
      ReadBare(r, front);
    }
    PlainIsAdded(ReadAll(r, front), last);
  }

  lemma {:induction false} PlainIsAdded(r: Reader, c: char)
    requires r.mode.Plain? && IsPlain(c)
    ensures Read(r, c) == Add(r, c)
  {
  }

  /** What reading has produced after some pieces, the last word perhaps still open. */
  predicate Reads(r: Reader, pieces: seq<Piece>) {
    r.mode.Plain? && !r.broken && EndWord(r).tokens == Meaning(pieces)
  }

  lemma {:induction false} ReadPiece(r: Reader, pieces: seq<Piece>, piece: Piece)
    requires Reads(r, pieces) && r.word.None? && (piece.Bare? ==> IsPlainWord(piece.text))
    ensures Reads(ReadAll(r, Print(piece)), pieces + [piece])
  {
    SnocFront(pieces, piece);
    match piece {
      case Bare(text) => ReadBare(r, text);
      case Quote(text) =>
        ReadEscaped(r, text);
        AddNothing(text);
      case And =>
        assert "&&"[..1] == ['&'];
        ReadOne(r, '&');
    }
  }

  lemma {:induction false} ReadLine(pieces: seq<Piece>)
    requires Writable(pieces)
    ensures Reads(ReadAll(START, Line(pieces)), pieces)
  {
    if |pieces| == 1 {
      ReadPiece(START, [], pieces[0]);
      assert [] + [pieces[0]] == pieces;
    } else if |pieces| > 1 {
      var front, last := pieces[..|pieces| - 1], pieces[|pieces| - 1];
      ReadLine(front);
      var before := ReadAll(START, Line(front));
      ReadAppend(START, Line(front) + [' '], Print(last));
      ReadAppend(START, Line(front), [' ']);
      ReadOne(before, ' ');
      ReadPiece(EndWord(before), front, last);
      FrontAndLast(pieces);
    }
  }

  /** Reading a command line gives back its pieces. */
  lemma {:induction false} LineReadsBack(pieces: seq<Piece>)
    requires Writable(pieces)
    ensures Tokens(Line(pieces)) == Some(Meaning(pieces))
  {
    ReadLine(pieces);
  }

  // ----- The command given to `sh -c` -------------------------------------------------------------------

  lemma {:induction false} LineSnoc(a: seq<Piece>, last: Piece)
    requires a != []
    ensures Line(a + [last]) == Line(a) + [' '] + Print(last)
  {
    SnocFront(a, last);
  }

  lemma {:induction false} LineAppend(a: seq<Piece>, b: seq<Piece>)
    requires a != [] && b != []
    ensures Line(a + b) == Line(a) + [' '] + Line(b)
  {
    var front, last := b[..|b| - 1], b[|b| - 1];
    FrontAndLast(b);
    if front == [] {
      assert b == [last];
      LineSnoc(a, last);
    } else {
      LineAppend(a, front);
      LineSnoc(front, last);
      LineSnoc(a + front, last);
      Associate(a, front, [last]);
      Regroup(Line(a), Line(front), Print(last));
    }
  }

  lemma {:induction false} Regroup(a: string, b: string, c: string)
    ensures (a + [' '] + b) + [' '] + c == a + [' '] + (b + [' '] + c)
  {
    Associate(a + [' '], b, [' ']);
    Associate(a + [' '], b + [' '], c);
  }

  lemma {:induction false} MeaningAppend(a: seq<Piece>, b: seq<Piece>)
    ensures Meaning(a + b) == Meaning(a) + Meaning(b)
  {
    if b == [] {
      AddNothing(a);
      AddNothing(Meaning(a));
    } else {
      var front, last := b[..|b| - 1], b[|b| - 1];
      assert (a + b)[..|a + b| - 1] == a + front;
      MeaningAppend(a, front);
      Associate(Meaning(a), Meaning(front), [match last case And => AndIf case p => Word(p.text)]);
    }
  }

  /** Words written as they are, and words written through `shellEscape`. */
  function Bares(words: seq<string>): (pieces: seq<Piece>)
    ensures |pieces| == |words| && forall i :: 0 <= i < |words| ==> pieces[i] == Bare(words[i])
  {
    seq(|words|, i requires 0 <= i < |words| => Bare(words[i]))
  }

  function Quotes(words: seq<string>): (pieces: seq<Piece>)
    ensures |pieces| == |words| && forall i :: 0 <= i < |words| ==> pieces[i] == Quote(words[i])
  {
    seq(|words|, i requires 0 <= i < |words| => Quote(words[i]))
  }

  function Words(texts: seq<string>): (tokens: seq<Token>)
    ensures |tokens| == |texts| && forall i :: 0 <= i < |texts| ==> tokens[i] == Word(texts[i])
  {
    seq(|texts|, i requires 0 <= i < |texts| => Word(texts[i]))
  }

  lemma {:induction false} MeaningOfWords(pieces: seq<Piece>, words: seq<string>)
    requires |pieces| == |words| && forall i :: 0 <= i < |words| ==>
      pieces[i] == Bare(words[i]) || pieces[i] == Quote(words[i])
    ensures Meaning(pieces) == Words(words)
  {
    if pieces != [] {
      var n := |pieces| - 1;
      MeaningOfWords(pieces[..n], words[..n]);
      assert Words(words) == Words(words[..n]) + [Word(words[n])];
    }
  }

  const PHASE_SCRIPT: seq<string> := ["node", "scripts/lib/bdd-phase.js"]
  const SHELL: seq<string> := ["--", "sh", "-c"]
  const NPM: seq<string> := ["npm", "--prefix", "./bdd", "run", "test:bdd"]
  const ENTER: seq<string> := ["cd", "/repo"]

  predicate AllPlain(words: seq<string>) {
    forall i :: 0 <= i < |words| ==> IsPlainWord(words[i])
  }

  /** `runPhase`: the phase name and its command, each one word. */
  function RunPhase(name: string, command: string): string {
    Line(Bares(PHASE_SCRIPT)) + [' '] + ShellEscape(name) + [' '] + Line(Bares(SHELL)) + [' '] + ShellEscape(command)
  }

  function PhasePieces(name: string, command: string): seq<Piece> {
    Bares(PHASE_SCRIPT) + [Quote(name)] + Bares(SHELL) + [Quote(command)]
  }

  lemma {:induction false} PhaseIsLine(name: string, command: string)
    ensures RunPhase(name, command) == Line(PhasePieces(name, command))
  {
    var a, b := Bares(PHASE_SCRIPT), Bares(SHELL);
    LineAppend(a, [Quote(name)]);
    LineAppend(a + [Quote(name)], b);
    LineAppend(a + [Quote(name)] + b, [Quote(command)]);
  }

  datatype Phase = Phase(name: string, command: string)

  /** The phases joined with " && ". */
  function Joined(phases: seq<Phase>): string
    requires phases != []
  {
    var last := phases[|phases| - 1];
    if |phases| == 1 then RunPhase(last.name, last.command)
    else Joined(phases[..|phases| - 1]) + " && " + RunPhase(last.name, last.command)
  }

  function JoinedPieces(phases: seq<Phase>): (pieces: seq<Piece>)
    requires phases != []
    ensures pieces != []
  {
    var last := phases[|phases| - 1];
    if |phases| == 1 then PhasePieces(last.name, last.command)
    else JoinedPieces(phases[..|phases| - 1]) + [And] + PhasePieces(last.name, last.command)
  }

  /** " && " between two lines. */
  lemma {:induction false} AndBetween(a: seq<Piece>, b: seq<Piece>)
    requires a != [] && b != []
    ensures Line(a + [And] + b) == Line(a) + " && " + Line(b)
  {
    LineAppend(a, [And]);
    LineAppend(a + [And], b);
    assert " && " == [' '] + "&&" + [' '];
    Associate(Line(a), [' '], "&&");
    Associate(Line(a), [' '] + "&&", [' ']);
  }

  lemma {:induction false} JoinedIsLine(phases: seq<Phase>)
    requires phases != []
    ensures Joined(phases) == Line(JoinedPieces(phases))
  {
    var last := phases[|phases| - 1];
    PhaseIsLine(last.name, last.command);
    if |phases| > 1 {
      JoinedIsLine(phases[..|phases| - 1]);
      AndBetween(JoinedPieces(phases[..|phases| - 1]), PhasePieces(last.name, last.command));
    }
  }

  /** The command of the Cucumber phase: every passthrough argument quoted. */
  function Script(args: seq<string>): string {
    var escaped := Line(Quotes(args));
    if |escaped| > 0 then Line(Bares(NPM)) + " -- " + escaped else Line(Bares(NPM))
  }

  /** The prepared phases, then Cucumber with its environment assignments. */
  function Prepared(prepared: seq<Phase>, assignments: seq<string>, args: seq<string>): string
    requires prepared != [] && assignments != []
  {
    Joined(prepared) + " && " + (Line(Bares(assignments)) + [' '] + RunPhase("Cucumber invocation", Script(args)))
  }

  function PreparedPieces(prepared: seq<Phase>, assignments: seq<string>, args: seq<string>): (pieces: seq<Piece>)
    requires prepared != []
    ensures pieces != []
  {
    JoinedPieces(prepared) + [And] + (Bares(assignments) + PhasePieces("Cucumber invocation", Script(args)))
  }

  /** `innerCommand`. */
  function InnerCommand(inRepo: bool, prepared: seq<Phase>, assignments: seq<string>, args: seq<string>): string
    requires prepared != [] && assignments != []
  {
    if inRepo then Line(Bares(ENTER)) + " && " + Prepared(prepared, assignments, args)
    else Prepared(prepared, assignments, args)
  }

  function InnerPieces(inRepo: bool, prepared: seq<Phase>, assignments: seq<string>, args: seq<string>): seq<Piece>
    requires prepared != []
  {
    if inRepo then Bares(ENTER) + [And] + PreparedPieces(prepared, assignments, args)
    else PreparedPieces(prepared, assignments, args)
  }

  lemma {:induction false} PreparedIsLine(prepared: seq<Phase>, assignments: seq<string>, args: seq<string>)
    requires prepared != [] && assignments != []
    ensures Prepared(prepared, assignments, args) == Line(PreparedPieces(prepared, assignments, args))
  {
    var phase := PhasePieces("Cucumber invocation", Script(args));
    PhaseIsLine("Cucumber invocation", Script(args));
    JoinedIsLine(prepared);
    LineAppend(Bares(assignments), phase);
    AndBetween(JoinedPieces(prepared), Bares(assignments) + phase);
  }

  lemma {:induction false} InnerIsLine(inRepo: bool, prepared: seq<Phase>, assignments: seq<string>, args: seq<string>)
    requires prepared != [] && assignments != []
    ensures InnerCommand(inRepo, prepared, assignments, args) == Line(InnerPieces(inRepo, prepared, assignments, args))
  {
    PreparedIsLine(prepared, assignments, args);
    if inRepo {
      AndBetween(Bares(ENTER), PreparedPieces(prepared, assignments, args));
    }
  }

  // ----- Everything is plain where it is written bare ------------------------------------------------------

  lemma {:induction false} BaresWritable(words: seq<string>)
    requires AllPlain(words)
    ensures Writable(Bares(words))
  {
  }

  lemma {:induction false} WritableAppend(a: seq<Piece>, b: seq<Piece>)
    requires Writable(a) && Writable(b)
    ensures Writable(a + b)
  {
  }

  lemma {:induction false} ConstantsArePlain()
    ensures AllPlain(PHASE_SCRIPT) && AllPlain(SHELL) && AllPlain(NPM) && AllPlain(ENTER) && IsPlainWord("--")
  {
    assert IsPlainWord("node") && IsPlainWord("scripts/lib/bdd-phase.js");
    assert IsPlainWord("--") && IsPlainWord("sh") && IsPlainWord("-c");
    assert IsPlainWord("npm") && IsPlainWord("--prefix") && IsPlainWord("./bdd") && IsPlainWord("run")
      && IsPlainWord("test:bdd");
    assert IsPlainWord("cd") && IsPlainWord("/repo");
  }

  lemma {:induction false} PhaseWritable(name: string, command: string)
    ensures Writable(PhasePieces(name, command))
  {
    ConstantsArePlain();
    BaresWritable(PHASE_SCRIPT);
    BaresWritable(SHELL);
    WritableAppend(Bares(PHASE_SCRIPT), [Quote(name)]);
    WritableAppend(Bares(PHASE_SCRIPT) + [Quote(name)], Bares(SHELL));
    WritableAppend(Bares(PHASE_SCRIPT) + [Quote(name)] + Bares(SHELL), [Quote(command)]);
  }

  lemma {:induction false} JoinedWritable(phases: seq<Phase>)
    requires phases != []
    ensures Writable(JoinedPieces(phases))
  {
    var last := phases[|phases| - 1];
    PhaseWritable(last.name, last.command);
    if |phases| > 1 {
      JoinedWritable(phases[..|phases| - 1]);
      WritableAppend(JoinedPieces(phases[..|phases| - 1]), [And]);
      WritableAppend(JoinedPieces(phases[..|phases| - 1]) + [And], PhasePieces(last.name, last.command));
    }
  }

  lemma {:induction false} InnerWritable(
      inRepo: bool, prepared: seq<Phase>, assignments: seq<string>, args: seq<string>)
    requires prepared != [] && AllPlain(assignments)
    ensures Writable(InnerPieces(inRepo, prepared, assignments, args))
  {
    ConstantsArePlain();
    JoinedWritable(prepared);
    PhaseWritable("Cucumber invocation", Script(args));
    BaresWritable(assignments);
    BaresWritable(ENTER);
    WritableAppend(Bares(assignments), PhasePieces("Cucumber invocation", Script(args)));
    WritableAppend(JoinedPieces(prepared), [And]);
    WritableAppend(
      JoinedPieces(prepared) + [And], Bares(assignments) + PhasePieces("Cucumber invocation", Script(args)));
    WritableAppend(Bares(ENTER), [And]);
    if inRepo {
      WritableAppend(Bares(ENTER) + [And], PreparedPieces(prepared, assignments, args));
    }
  }

  // ----- The round trips ---------------------------------------------------------------------------------------

  /** Splitting a quoted argument list gives the arguments back: empty strings, blanks, quotes and all. */
  lemma {:induction false} QuotedListReadsBack(args: seq<string>)
    ensures Tokens(Line(Quotes(args))) == Some(Words(args))
  {
    LineReadsBack(Quotes(args));
    MeaningOfWords(Quotes(args), args);
  }

  lemma {:induction false} QuotesAreText(args: seq<string>)
    ensures |Line(Quotes(args))| > 0 <==> args != []
  {
    if |args| > 1 {
      assert Quotes(args)[|args| - 1] == Quote(args[|args| - 1]);
    }
  }

  function ScriptWords(args: seq<string>): seq<string> {
    ["npm", "--prefix", "./bdd", "run", "test:bdd"] + if args == [] then [] else ["--"] + args
  }

  /** Splitting the Cucumber script gives npm's words and then exactly the passthrough arguments. */
  lemma {:induction false} ScriptReadsBack(args: seq<string>)
    ensures Tokens(Script(args)) == Some(Words(ScriptWords(args)))
  {
    hide Tokens, Script, Words;
    ScriptTokens(args);
    assert NPM + (if args == [] then [] else ["--"] + args) == ScriptWords(args);
  }

  lemma {:induction false} ScriptTokens(args: seq<string>)
    ensures Tokens(Script(args)) == Some(Words(NPM + if args == [] then [] else ["--"] + args))
  {
    ConstantsArePlain();
    QuotesAreText(args);
    if args == [] {
      LineReadsBack(Bares(NPM));
      MeaningOfWords(Bares(NPM), NPM);
      AddNothing(NPM);
    } else {
      var dashes := Bares(["--"]);
      var pieces := Bares(NPM) + dashes + Quotes(args);
      LineAppend(Bares(NPM), dashes);
      LineAppend(Bares(NPM) + dashes, Quotes(args));
      assert Line(dashes) == "--" && " -- " == [' '] + "--" + [' '];
      Associate(Line(Bares(NPM)), [' '], "--");
      Associate(Line(Bares(NPM)), [' '] + "--", [' ']);
      LineReadsBack(pieces);
      assert NPM + (["--"] + args) == NPM + ["--"] + args;
      MeaningOfWords(pieces, NPM + ["--"] + args);
    }
  }

  /** What the shell runs before the Cucumber phase. */
  function Before(inRepo: bool, prepared: seq<Phase>, assignments: seq<string>): seq<Token>
    requires prepared != []
  {
    (if inRepo then Words(["cd", "/repo"]) + [AndIf] else []) + PhaseTokens(prepared) + [AndIf] + Words(assignments)
  }

  function PhaseWords(name: string, command: string): seq<string> {
    ["node", "scripts/lib/bdd-phase.js", name, "--", "sh", "-c", command]
  }

  /** The phases in order, each with its name and its command as one word. */
  function PhaseTokens(phases: seq<Phase>): seq<Token>
    requires phases != []
    decreases |phases|
  {
    var first := Words(PhaseWords(phases[0].name, phases[0].command));
    if |phases| == 1 then first else first + [AndIf] + PhaseTokens(phases[1..])
  }

  lemma {:induction false} PhaseMeaning(name: string, command: string)
    ensures Meaning(PhasePieces(name, command)) == Words(PhaseWords(name, command))
  {
    assert PHASE_SCRIPT + [name] + SHELL + [command] == PhaseWords(name, command);
    MeaningOfWords(PhasePieces(name, command), PhaseWords(name, command));
  }

  lemma {:induction false} OneAnd()
    ensures Meaning([And]) == [AndIf]
  {
    assert [And][..0] == [];
  }

  lemma {:induction false} MorePhases(phases: seq<Phase>, last: Phase)
    requires phases != []
    ensures PhaseTokens(phases + [last])
      == PhaseTokens(phases) + [AndIf] + Words(PhaseWords(last.name, last.command))
    decreases |phases|
  {
    var end := Words(PhaseWords(last.name, last.command));
    assert (phases + [last])[1..] == phases[1..] + [last];
    if |phases| > 1 {
      var first := Words(PhaseWords(phases[0].name, phases[0].command));
      MorePhases(phases[1..], last);
      Associate(first + [AndIf], PhaseTokens(phases[1..]), [AndIf]);
      Associate(first + [AndIf], PhaseTokens(phases[1..]) + [AndIf], end);
    } else {
      assert PhaseTokens([last]) == end;
    }
  }

  lemma {:induction false} JoinedMeaning(phases: seq<Phase>)
    requires phases != []
    ensures Meaning(JoinedPieces(phases)) == PhaseTokens(phases)
  {
    hide Words, PhaseWords, Meaning, PhasePieces;
    var front, last := phases[..|phases| - 1], phases[|phases| - 1];
    PhaseMeaning(last.name, last.command);
    if front != [] {
      JoinedMeaning(front);
      MeaningAppend(JoinedPieces(front), [And]);
      MeaningAppend(JoinedPieces(front) + [And], PhasePieces(last.name, last.command));
      OneAnd();
      MorePhases(front, last);
      FrontAndLast(phases);
    }
  }

  /**
   Splitting the composed command gives the phases and, as the one argument of the last `sh -c`, the
   Cucumber script; splitting that gives the original arguments.
   */
  lemma {:induction false} InnerCommandRoundTrips(
      inRepo: bool, prepared: seq<Phase>, assignments: seq<string>, args: seq<string>)
    requires prepared != [] && assignments != [] && AllPlain(assignments)
    ensures Tokens(InnerCommand(inRepo, prepared, assignments, args))
      == Some(Before(inRepo, prepared, assignments) + Words(PhaseWords("Cucumber invocation", Script(args))))
    ensures Tokens(Script(args)) == Some(Words(ScriptWords(args)))
  {
    ScriptReadsBack(args);
    InnerIsLine(inRepo, prepared, assignments, args);
    InnerWritable(inRepo, prepared, assignments, args);
    LineReadsBack(InnerPieces(inRepo, prepared, assignments, args));
    InnerMeaning(inRepo, prepared, assignments, args);
  }

  lemma {:induction false} PreparedMeaning(prepared: seq<Phase>, assignments: seq<string>, args: seq<string>)
    requires prepared != []
    ensures Meaning(PreparedPieces(prepared, assignments, args))
      == (Meaning(JoinedPieces(prepared)) + [AndIf])
         + (Words(assignments) + Words(PhaseWords("Cucumber invocation", Script(args))))
  {
    var phase := PhasePieces("Cucumber invocation", Script(args));
    MeaningOfWords(Bares(assignments), assignments);
    PhaseMeaning("Cucumber invocation", Script(args));
    MeaningAppend(Bares(assignments), phase);
    MeaningAppend(JoinedPieces(prepared), [And]);
    MeaningAppend(JoinedPieces(prepared) + [And], Bares(assignments) + phase);
    OneAnd();
  }

  lemma {:induction false} InnerMeaning(inRepo: bool, prepared: seq<Phase>, assignments: seq<string>, args: seq<string>)
    requires prepared != []
    ensures Meaning(InnerPieces(inRepo, prepared, assignments, args))
      == Before(inRepo, prepared, assignments) + Words(PhaseWords("Cucumber invocation", Script(args)))
  {
    var ready := PhaseTokens(prepared) + [AndIf];
    JoinedMeaning(prepared);
    var last := Words(PhaseWords("Cucumber invocation", Script(args)));
    PreparedMeaning(prepared, assignments, args);
    Associate(ready, Words(assignments), last);
    if inRepo {
      var enter := Words(ENTER) + [AndIf];
      MeaningOfWords(Bares(ENTER), ENTER);
      MeaningAppend(Bares(ENTER), [And]);
      OneAnd();
      MeaningAppend(Bares(ENTER) + [And], PreparedPieces(prepared, assignments, args));
      Associate(enter, PhaseTokens(prepared), [AndIf]);
      Associate(enter, ready, Words(assignments));
      Associate(enter, ready + Words(assignments), last);
    } else {
      AddNothing(PhaseTokens(prepared));
    }
  }
}
