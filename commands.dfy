/** The command line (main.go, main) and the two actions it dispatches to
    (doStatus and doGuess), with the whole invocation as one function from the
    argument vector, the identity lookup's success and the server's answer to
    what is printed and the exit status. */
module Commands {
  import opened WordleTypes
  import Commentary
  import Rendering
  import Urls
  import opened Responses

  const UsageText: string := "Expected 'wordle <org[/repo] <status | guess <word>>'"
  const WhoAreYouText: string := "Couldn't figure out who you are. Did you login?"
  const NeedWordText: string := "You need a guess to guess"
  const GameErrorText: string := "Error getting your Wordle game"
  const NoGameText: string := "No game running today. Yet..."
  const InvalidGuessText: string := "Hmmm, that was an invalid guess"
  const TestFlag: string := "-test"

  /** Exit statuses: normal return, os.Exit(1), and a Go runtime panic. */
  const ExitOk: int := 0
  const ExitFailure: int := 1
  const ExitPanic: int := 2

  /** What the argument vector asks for. */
  datatype Command =
    | Usage
    | MissingWord
    | GuessWord(locator: Locator, word: string)
    | ShowStatus(locator: Locator)

  /** main's dispatch. args[0] is the program, args[1] the host, args[2] the
      subcommand; the test flag is set when the last argument is "-test". */
  function Dispatch(args: seq<string>): (c: Command)
    ensures c.Usage? <==> |args| < 3 || (args[2] != "guess" && args[2] != "status")
    ensures c.MissingWord? <==> |args| == 3 && args[2] == "guess"
    ensures c.GuessWord? <==> |args| >= 4 && args[2] == "guess"
    ensures c.GuessWord? ==> c.word == args[3]
    ensures c.ShowStatus? <==> |args| >= 3 && args[2] == "status"
    ensures (c.GuessWord? || c.ShowStatus?) ==>
      c.locator.host == args[1] && (c.locator.test <==> args[|args| - 1] == TestFlag)
  {
    if |args| < 3 then Usage
    else
      var locator := Locator(args[1], args[|args| - 1] == TestFlag);
      if args[2] == "guess" then
        if |args| < 4 then MissingWord else GuessWord(locator, args[3])
      else if args[2] == "status" then ShowStatus(locator)
      else Usage
  }

  /** The shortest argument vector for a command, after the program name. */
  function Argv(program: string, c: Command): seq<string>
  {
    match c
    case Usage => [program]
    case MissingWord => [program, "", "guess"]
    case GuessWord(loc, word) =>
      [program, loc.host, "guess", word] + (if loc.test then [TestFlag] else [])
    case ShowStatus(loc) =>
      [program, loc.host, "status"] + (if loc.test then [TestFlag] else [])
  }

  /** Every command can be written on the command line and is read back as itself,
      except a guess of the word "-test" on the production server: written
      shortest, that word is also the last argument and turns the test flag on. */
  lemma DispatchArgv(program: string, c: Command)
    requires !(c.GuessWord? && c.word == TestFlag && !c.locator.test)
    ensures Dispatch(Argv(program, c)) == c
  {
  }

  /** The word "-test" guessed as the last argument is taken as the test flag too. */
  lemma TestWordSetsFlag(program: string, host: string)
    ensures Dispatch([program, host, "guess", TestFlag]) == GuessWord(Locator(host, true), TestFlag)
  {
  }

  /** The program name plays no part in the dispatch. */
  lemma ProgramNameIgnored(args: seq<string>, program: string)
    requires |args| > 0
    ensures Dispatch(args[0 := program]) == Dispatch(args)
  {
  }

  /** What an invocation printed, in order. */
  datatype Printed =
    | Line(text: string)                  // a fixed message and a newline
    | Detail(failure: Failure)            // an error value printed with its details
    | Board(tokens: seq<Rendering.Token>) // what printGame wrote

  /** The HTTP verb of a request. */
  datatype Verb = Get | Post

  /** The request an action sends; none when http.NewRequest refused it. */
  datatype Request = Request(verb: Verb, url: string)

  /** An invocation: the request it sent, if any, what it printed, and its exit status. */
  datatype Invocation = Invocation(request: Option<Request>, output: seq<Printed>, exit: int)

  /** printGame's output, and the exit status it leaves. */
  function PrintBoard(game: GameStatus): (r: (seq<Printed>, int))
    ensures r.0 == [Board(Rendering.Render(game.guesses).tokens)]
    ensures r.1 == ExitOk || r.1 == ExitPanic
    ensures r.1 == ExitPanic <==>
      exists k :: 0 <= k < |game.guesses| && |game.guesses[k].matches| < |game.guesses[k].word|
  {
    Rendering.CrashIff(game.guesses);
    var plan := Rendering.Render(game.guesses);
    ([Board(plan.tokens)], if plan.crashed then ExitPanic else ExitOk)
  }

  /** doStatus: GET the status URL and print the error, the "no game" line or the
      board. When the request cannot be built nothing is sent. */
  function DoStatus(loc: Locator, answer: Exchange): (r: Invocation)
    ensures r.request.Some? <==> !answer.NotBuilt?
    ensures r.request.Some? ==> r.request.value == Request(Get, Urls.StatusUrl(loc))
    ensures r.exit == ExitOk || r.exit == ExitPanic
    ensures Send(answer).Failed? ==>
      r.output == [Line(GameErrorText), Detail(Send(answer).failure)] && r.exit == ExitOk
    ensures Send(answer).NoGame? ==> r.output == [Line(NoGameText)] && r.exit == ExitOk
    ensures Send(answer).Game? ==>
      r.output == [Board(Rendering.Render(Send(answer).game.guesses).tokens)] &&
      (r.exit == ExitPanic <==> Rendering.Render(Send(answer).game.guesses).crashed)
  {
    var request := if answer.NotBuilt? then None else Some(Request(Get, Urls.StatusUrl(loc)));
    match Send(answer)
    case Failed(f) => Invocation(request, [Line(GameErrorText), Detail(f)], ExitOk)
    case NoGame => Invocation(request, [Line(NoGameText)], ExitOk)
    case Game(game) =>
      var (out, exit) := PrintBoard(game);
      Invocation(request, out, exit)
  }

  /** doGuess: POST the word and print the error, the "invalid guess" line, or the
      comment on the latest guess and the board. A game with no guesses makes
      the index of the latest guess negative: a panic before anything is printed.
      When the request cannot be built nothing is sent. */
  function DoGuess(loc: Locator, word: string, answer: Exchange): (r: Invocation)
    ensures r.request.Some? <==> !answer.NotBuilt?
    ensures r.request.Some? ==> r.request.value == Request(Post, Urls.GuessUrl(loc, word))
    ensures r.exit == ExitOk || r.exit == ExitPanic
    ensures r.output == [] <==> r.exit == ExitPanic && Send(answer).Game? && Send(answer).game.guesses == []
  {
    var request := if answer.NotBuilt? then None else Some(Request(Post, Urls.GuessUrl(loc, word)));
    match Send(answer)
    case Failed(f) => Invocation(request, [Line(GameErrorText), Detail(f)], ExitOk)
    case NoGame => Invocation(request, [Line(InvalidGuessText)], ExitOk)
    case Game(game) =>
      if |game.guesses| == 0 then Invocation(request, [], ExitPanic)
      else
        var comment := Commentary.Comment(game.guesses[|game.guesses| - 1]);
        var (out, exit) := PrintBoard(game);
        Invocation(request, [Line(comment)] + out, exit)
  }

  /** main: the argument count is checked, then the identity looked up, then the
      subcommand dispatched. */
  function Run(args: seq<string>, signedIn: bool, answer: Exchange): (r: Invocation)
    ensures r.exit == ExitOk || r.exit == ExitFailure || r.exit == ExitPanic
    ensures r.request.Some? ==> signedIn && |args| >= 3
    ensures r.exit == ExitFailure ==> r.request == None && |r.output| >= 1
  {
    if |args| < 3 then Invocation(None, [Line(UsageText)], ExitFailure)
    else if !signedIn then
      Invocation(None, [Line(WhoAreYouText), Detail(IdentityUnavailable)], ExitFailure)
    else
      match Dispatch(args)
      case Usage => Invocation(None, [Line(UsageText)], ExitFailure)
      case MissingWord => Invocation(None, [Line(NeedWordText)], ExitFailure)
      case GuessWord(loc, word) => DoGuess(loc, word, answer)
      case ShowStatus(loc) => DoStatus(loc, answer)
  }

  /** The invocation exits with status 1 exactly when there are too few arguments,
      the identity is unknown, the subcommand is unknown or the guess has no word. */
  lemma ExitOneIff(args: seq<string>, signedIn: bool, answer: Exchange)
    ensures Run(args, signedIn, answer).exit == ExitFailure <==>
      !signedIn || Dispatch(args).Usage? || Dispatch(args).MissingWord?
  {
  }

  /** A request is sent exactly when a signed-in user asks for the status or makes
      a guess and the request could be built: a GET of the status URL or a POST
      of the guess URL, both under the game's base URL. */
  lemma RequestSent(args: seq<string>, signedIn: bool, answer: Exchange)
    ensures Run(args, signedIn, answer).request.Some? <==>
      signedIn && (Dispatch(args).GuessWord? || Dispatch(args).ShowStatus?) && !answer.NotBuilt?
    ensures signedIn && Dispatch(args).ShowStatus? && !answer.NotBuilt? ==>
      Run(args, signedIn, answer).request == Some(Request(Get, Urls.StatusUrl(Dispatch(args).locator)))
    ensures signedIn && Dispatch(args).GuessWord? && !answer.NotBuilt? ==>
      Run(args, signedIn, answer).request
        == Some(Request(Post, Urls.GuessUrl(Dispatch(args).locator, Dispatch(args).word)))
    ensures Run(args, signedIn, answer).request.Some? ==>
      Urls.BaseUrl(Dispatch(args).locator) <= Run(args, signedIn, answer).request.value.url
  {
    if signedIn && (Dispatch(args).GuessWord? || Dispatch(args).ShowStatus?) && !answer.NotBuilt? {
      Urls.SharedPrefix(Dispatch(args).locator, if Dispatch(args).GuessWord? then Dispatch(args).word else "");
    }
  }

  /** The identity is looked up before the subcommand is read: a guess without a
      word from an unknown user is told to log in, not to give a word. */
  lemma IdentityBeforeWord(program: string, host: string, answer: Exchange)
    ensures Run([program, host, "guess"], false, answer).output == [Line(WhoAreYouText), Detail(IdentityUnavailable)]
  {
  }

  /** A rejected guess (status 400) and a server error (any other status of 300
      or more) both print the "invalid guess" line and end normally. */
  lemma RejectedGuess(args: seq<string>, code: int, body: Body)
    requires |args| >= 4 && args[2] == "guess"
    requires code >= 300
    ensures Run(args, true, Answered(code, body)).output == [Line(InvalidGuessText)]
    ensures Run(args, true, Answered(code, body)).exit == ExitOk
  {
  }

  /** The same for a status request: "no game" and a normal end. */
  lemma NoGameToday(args: seq<string>, code: int, body: Body)
    requires |args| >= 3 && args[2] == "status"
    requires code >= 300
    ensures Run(args, true, Answered(code, body)).output == [Line(NoGameText)]
    ensures Run(args, true, Answered(code, body)).exit == ExitOk
  {
  }

  /** Errors from building, sending, reading or decoding are printed and the
      program still ends normally. */
  lemma FailureEndsNormally(args: seq<string>, answer: Exchange)
    requires Dispatch(args).GuessWord? || Dispatch(args).ShowStatus?
    requires Send(answer).Failed?
    ensures Run(args, true, answer).output == [Line(GameErrorText), Detail(Send(answer).failure)]
    ensures Run(args, true, answer).exit == ExitOk
  {
  }

  /** A status request panics exactly when the game holds a guess with fewer marks
      than letters. */
  lemma StatusPanicIff(args: seq<string>, game: GameStatus, code: int)
    requires Dispatch(args).ShowStatus? && code <= 299
    ensures Run(args, true, Answered(code, Decoded(game))).exit == ExitPanic <==>
      exists k :: 0 <= k < |game.guesses| && |game.guesses[k].matches| < |game.guesses[k].word|
  {
    Rendering.CrashIff(game.guesses);
  }

  /** A guess panics exactly when the game that comes back has no guesses or a
      guess with fewer marks than letters; otherwise it prints the comment on the
      last guess, then the board. */
  lemma GuessPanicIff(args: seq<string>, game: GameStatus, code: int)
    requires Dispatch(args).GuessWord? && code <= 299
    ensures Run(args, true, Answered(code, Decoded(game))).exit == ExitPanic <==>
      |game.guesses| == 0 ||
      exists k :: 0 <= k < |game.guesses| && |game.guesses[k].matches| < |game.guesses[k].word|
    ensures Run(args, true, Answered(code, Decoded(game))).exit != ExitPanic ==>
      Run(args, true, Answered(code, Decoded(game))).output ==
        [Line(Commentary.Comment(game.guesses[|game.guesses| - 1])),
         Board(Rendering.Render(game.guesses).tokens)]
  {
    Rendering.CrashIff(game.guesses);
  }

  /** An example: the board for "tears" is five coloured letters and a line break. */
  lemma TearsBoard()
    ensures PrintBoard(GameStatus([Guess("tears", ["gray", "yellow", "green", "gray", "gray"], false)], "")) ==
      ([Board([Rendering.Letter(Rendering.Gray, 't'), Rendering.Letter(Rendering.Yellow, 'e'),
               Rendering.Letter(Rendering.Green, 'a'), Rendering.Letter(Rendering.Gray, 'r'),
               Rendering.Letter(Rendering.Gray, 's'), Rendering.LineBreak])], ExitOk)
  {
    var g := Guess("tears", ["gray", "yellow", "green", "gray", "gray"], false);
    Rendering.WellMarkedGuess(g);
    var line := Rendering.RenderGuess(g).tokens;
    assert line == [Rendering.Letter(Rendering.Gray, 't'), Rendering.Letter(Rendering.Yellow, 'e'),
                    Rendering.Letter(Rendering.Green, 'a'), Rendering.Letter(Rendering.Gray, 'r'),
                    Rendering.Letter(Rendering.Gray, 's'), Rendering.LineBreak];
    assert [g][1..] == [];
    assert Rendering.Render([g]) == Rendering.Plan(line, false);
  }

  /** An example: the guess "tears" marked gray, yellow, green, gray, gray
      prints the bottom comment and one line of five coloured letters. */
  lemma TearsExample(program: string, host: string)
    ensures Run([program, host, "guess", "tears"], true,
                Answered(200, Decoded(GameStatus([Guess("tears", ["gray", "yellow", "green", "gray", "gray"], false)], ""))))
         == Invocation(Some(Request(Post, Urls.GuessUrl(Locator(host, false), "tears"))),
                       [Line(Commentary.BottomMessage),
                        Board([Rendering.Letter(Rendering.Gray, 't'), Rendering.Letter(Rendering.Yellow, 'e'),
                               Rendering.Letter(Rendering.Green, 'a'), Rendering.Letter(Rendering.Gray, 'r'),
                               Rendering.Letter(Rendering.Gray, 's'), Rendering.LineBreak])],
                       ExitOk)
  {
    var g := Guess("tears", ["gray", "yellow", "green", "gray", "gray"], false);
    Commentary.ScoreExamples();
    TearsBoard();
    assert "tears" != TestFlag;
    assert Dispatch([program, host, "guess", "tears"]) == GuessWord(Locator(host, false), "tears");
  }

  /** A request the HTTP library refuses to build is never sent, and the error is
      printed. */
  lemma UnbuiltRequestNotSent(args: seq<string>)
    requires Dispatch(args).GuessWord? || Dispatch(args).ShowStatus?
    ensures Run(args, true, NotBuilt).request == None
    ensures Run(args, true, NotBuilt).output == [Line(GameErrorText), Detail(RequestRejected)]
  {
  }

  /** A successful status request prints the board of the game and nothing else. */
  lemma StatusShowsBoard(args: seq<string>, game: GameStatus, code: int)
    requires Dispatch(args).ShowStatus? && code <= 299
    ensures Run(args, true, Answered(code, Decoded(game))).output ==
      [Board(Rendering.Render(game.guesses).tokens)]
  {
  }
}
