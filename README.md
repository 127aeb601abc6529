# gh-wordle client core, in Dafny

A model of the decision logic of `gh-wordle`, a command-line client for a daily
word-guessing game played against a remote game server. The client reads its
arguments, builds one request URL, sends one request, reads the server's answer,
and prints a board of coloured letters with a short comment. The model covers
every decision the client makes around that HTTP call:

- `Commentary`: the comment on the latest guess (`getGuessComment`). The score is
  a recursive function `Score`. The source's accumulating loop is the method
  `GetGuessComment`, which is proved equal to it.
- `Rendering`: the board (`printGame`). The method `PrintGame` keeps the source's
  nested loop. It writes a sequence of tokens instead of terminal output. If it
  indexes a missing mark, the Go program panics; the method returns a `crashed`
  flag for that. It is proved equal to the function `Render`.
- `Urls`: the request URLs (`getUrl`, plus the `/status` and `/<word>` suffixes).
  `ParseUrl` is an inverse of `getUrl`, proved in both directions.
- `Responses`: the status-code decision in `send`, as the function `Send`. Its
  input is an abstract `Exchange`: what building, sending, reading and decoding
  produced.
- `Commands`: the dispatch in `main` (`Dispatch`), `doStatus` and `doGuess`
  (`DoStatus`, `DoGuess`), and the whole invocation as `Run`. `Run` maps the
  argument vector, whether the identity lookup succeeded, and the server's answer
  to the request sent, the lines printed and the exit status. A Go runtime panic
  is exit status 2.

Notes on the code's behaviour:

- A status above 299 other than 400 also gives no game and no error, because
  main.go:189 returns the transport's `err`, which is nil at that point
  (`Responses.ServerErrorLooksLikeNoGame`, `Commands.RejectedGuess`).
- Every status of 299 or below goes on to reading and decoding the body.
- The comment thresholds are strict: the marks gray, yellow, green, gray, gray
  score 3, which gives "Bummer. Try something like 'tears'"
  (`Commentary.ScoreExamples`, `Commands.TearsExample`).
- When `http.NewRequest` refuses the URL (main.go:100-103, main.go:126-129),
  nothing is sent and the error is printed (`Commands.UnbuiltRequestNotSent`).

## Model

| member | source | states |
|---|---|---|
| Commentary.Points | main.go:139-144 | Definition: a "green" mark is worth 2, a "yellow" one 1, any other string 0. Contract: never more than 2. |
| Commentary.Score | main.go:137-145 | Definition: the points of the marks summed from first to last, as the loop does. Contract: at most 2 per mark. |
| Commentary.Tier | main.go:146-152 | Definition: the message for a non-winning score under the strict thresholds. Contract: one of the three encouragement messages. |
| Commentary.Comment | main.go:133-153 | Definition: getGuessComment as a function. Contract: the result is the win message exactly when the guess matched. |
| Commentary.GetGuessComment | main.go:133-153 | A winning guess gets the win message. Otherwise the loop's score is twice the green marks plus the yellow ones, and the message is the tier of that score; the result equals `Comment`. |
| Commentary.ScoreCountsMarks | main.go:137-145 | The recursive score equals 2 × (number of "green") + (number of "yellow"); every other string adds 0. |
| Commentary.ScoreBounds | main.go:137-145 | The score is between 0 and 2 × the number of marks. |
| Commentary.ScoreIgnoresOrder | main.go:137-145 | Two rows with the same marks in any order have the same score. |
| Commentary.ScoreAppend | main.go:138-144 | One more mark adds exactly that mark's points (2, 1 or 0). |
| Commentary.TierBands | main.go:146-152 | Above 6 gives the top message, 4 to 6 the middle one, 3 or less the bottom one, each in both directions. |
| Commentary.TierMonotone | main.go:146-152 | A higher score never gives a lower-ranked message. |
| Commentary.WinIgnoresMarks | main.go:134-136 | A winning guess gets "Awesome! You won!" whatever its marks are. |
| Commentary.NoWinWithoutMatch | main.go:134-152 | A guess that did not win never gets the win message; it gets the tier of its counted score. |
| Commentary.ScoreExamples | main.go:137-152 | Five greens give the top message, scores 3 give the bottom one, score 5 the middle one. |
| Rendering.ColourOf | main.go:163-170 | Definition, no contract: "green", "yellow" and "gray" have a colour; any other mark has none. Its property is stated by `ColourOfKnown`. |
| Rendering.ColourOfKnown | main.go:163-170 | A mark has a colour exactly when it is "green", "yellow" or "gray". |
| Rendering.LettersUpTo | main.go:161-171 | Definition, no contract: the tokens the inner loop writes for the first n letters. Its properties are stated by `LettersShape`, `LettersExact` and `UnknownMarkSkipped`. |
| Rendering.RenderGuess | main.go:161-172 | Definition: the tokens for one guess, then a line break, or a crash partway. Contract: it crashes exactly when the guess has fewer marks than letters. |
| Rendering.Render | main.go:160-173 | Definition: the guesses rendered in order, stopping at the first crash. Contract: only a non-empty game can crash. The main properties are stated by `CrashIff`, `OneBreakPerGuess` and `RenderInOrder`. |
| Rendering.PrintGame | main.go:155-174 | The nested loop writes exactly what `Render` gives: the same tokens, and a crash exactly when `Render` crashes. |
| Rendering.LettersShape | main.go:161-171 | A guess writes at most one token per letter and none for an unknown mark: exactly as many as positions with a known mark, and no line break among them. |
| Rendering.LettersExact | main.go:161-171 | When every mark is known, token j is letter j of the word in the colour of mark j. |
| Rendering.UnknownMarkSkipped | main.go:163-170 | An unknown mark writes nothing: the tokens are those of the guess with that letter and mark removed. |
| Rendering.PrefixOnly | main.go:161-163 | The tokens for the first n letters depend only on the first n letters and marks. |
| Rendering.CrashIff | main.go:160-163 | Rendering panics exactly when some guess has fewer marks than letters. |
| Rendering.OneBreakPerGuess | main.go:160-173 | A rendering that does not crash writes exactly one line break per guess. |
| Rendering.RenderInOrder | main.go:160-173 | Guesses are written in order: the board of `a + b` is the board of `a` followed by the board of `b`, unless `a` crashed. |
| Rendering.WellMarkedGuess | main.go:160-173 | A guess with a known mark per letter is written as all its letters in their colours, then one line break. |
| Urls.Kind | main.go:207-210 | Definition: "repos" when the host holds a `/`, else "orgs". Contract: always one of the two. |
| Urls.Server | main.go:211-214 | Definition: the server name chosen by the test flag. Contract: the test server exactly when the flag is set. |
| Urls.BaseUrl | main.go:206-216 | Definition: getUrl's format string filled in. Contract: the URL starts with the chosen server's prefix. |
| Urls.StatusUrl | main.go:99 | Definition: the base URL followed by "/status". Contract: it extends the base URL. |
| Urls.GuessUrl | main.go:125 | Definition: the base URL followed by "/" and the word. Contract: it extends the base URL by exactly one character plus the word. |
| Urls.PrefixesDiffer | main.go:211-215 | The production and test prefixes differ, and neither starts a URL built on the other. |
| Urls.BaseUrlShape | main.go:206-216 | The kind is "orgs" iff the host has no `/`, else "repos". The server is the test one iff the flag is set. The URL is the server's prefix, then the kind and "/", then the host verbatim, then "/wordle". |
| Urls.ParseAfterPrefix | main.go:211-215 | Reading a URL that starts with a server prefix reads the rest as belonging to that server. |
| Urls.ParseKindAndHostBack | main.go:207-215 | The `<kind>/<host>/wordle` part reads back as the host. |
| Urls.ParseBaseUrl | main.go:206-216 | The locator can always be read back from its URL. |
| Urls.ParsedKindAndHost | main.go:207-215 | Every `<kind>/<host>/wordle` part that reads back as a host is the one written for it. |
| Urls.ParsedUnderPrefix | main.go:206-216 | A URL that starts with a server prefix and whose rest reads back as a locator is that locator's URL. |
| Urls.ParsedUrlIsBaseUrl | main.go:206-216 | Every URL that reads back as a locator is that locator's URL. |
| Urls.BaseUrlInjective | main.go:206-216 | Different locators give different base URLs. |
| Urls.SharedPrefix | main.go:99-125 | The status URL is the base URL followed by "/status". The guess URL is the base URL followed by "/" and the word. |
| Urls.GuessStatusCollides | main.go:99-125 | Because nothing is escaped, the guess "status" goes to the status URL. |
| Urls.GuessUrlAmbiguous | main.go:125 | Because nothing is escaped, two different games can receive the same guess URL. |
| Urls.KindExamples | main.go:207-210 | "my-org" is placed under "orgs"; "my-org/my-repo" is placed under "repos". |
| Responses.Send | main.go:98-203 | Every status of 300 or more, 400 included, gives "no game" and no error. Only 299 or below reaches the body, and a game comes back exactly when the body was decoded. Failing to build the request (main.go:100-103, main.go:126-129), send it, read the body or decode it gives an error. |
| Responses.BodyIgnoredFromThreeHundred | main.go:186-190 | From status 300 on, the body plays no part in the reply. |
| Responses.ServerErrorLooksLikeNoGame | main.go:180-190 | Status 500 gives the same reply as 400: no game, no error. |
| Responses.FailureSources | main.go:180-201 | An error never comes from the status code alone. |
| Commands.Dispatch | main.go:37-68 | Fewer than 3 arguments give usage. "guess" with exactly 3 gives the missing-word exit, and with more it guesses argument 3. "status" gives the status. Any other subcommand gives usage. The host is argument 1, and the test flag is set iff the last argument is "-test". |
| Commands.PrintBoard | main.go:155-174 | printGame prints exactly the board `Render` gives. The program panics exactly when some guess has fewer marks than letters, and otherwise ends normally. |
| Commands.DoStatus | main.go:83-105 | doStatus sends a GET of the status URL exactly when the request could be built, and never exits with status 1. An error prints the error line and its details. No game prints "No game running today. Yet...". A game prints exactly its board, with a panic exactly when rendering crashes. |
| Commands.DoGuess | main.go:107-131 | doGuess sends a POST of the guess URL exactly when the request could be built, and never exits with status 1. It prints nothing exactly when it panics on a game with no guesses. |
| Commands.Run | main.go:37-68 | The exit status is 0, 1 or 2. A request is sent only for a signed-in user with at least 3 arguments. Exit status 1 sends nothing and prints a message. |
| Commands.DispatchArgv | main.go:50-66 | Every command reads back from its shortest argument vector, except a guess of "-test" on the production server. |
| Commands.TestWordSetsFlag | main.go:51-61 | The guess "-test" given as the last argument also turns on the test server. |
| Commands.ProgramNameIgnored | main.go:38-66 | Argument 0 plays no part in the dispatch. |
| Commands.ExitOneIff | main.go:37-68 | Exit status 1 happens exactly for too few arguments, an unknown identity, an unknown subcommand or a missing word. |
| Commands.RequestSent | main.go:98-131 | A request is sent exactly for a signed-in status or guess whose request could be built. Status sends a GET to the status URL and guess sends a POST to the guess URL, both under the base URL. |
| Commands.UnbuiltRequestNotSent | main.go:98-113 | When the request cannot be built, nothing is sent and the error line with its details is printed. |
| Commands.StatusShowsBoard | main.go:83-96 | A status request answered with 299 or below and a decoded game prints exactly that game's board. |
| Commands.IdentityBeforeWord | main.go:38-61 | The identity is checked before the subcommand: a guess without a word from an unknown user is told to log in. |
| Commands.RejectedGuess | main.go:107-118 | A guess answered with a status of 300 or more prints "Hmmm, that was an invalid guess" and exits with 0. |
| Commands.NoGameToday | main.go:83-94 | A status request answered with a status of 300 or more prints "No game running today. Yet..." and exits with 0. |
| Commands.FailureEndsNormally | main.go:83-113 | Build, transport, read and decode errors are printed with their details, and the program exits with 0. |
| Commands.StatusPanicIff | main.go:83-96 | A status request panics exactly when some guess has fewer marks than letters. |
| Commands.GuessPanicIff | main.go:107-122 | A guess panics exactly when the game has no guesses or some guess lacks marks. Otherwise it prints the comment on the last guess, then the board. |
| Commands.TearsBoard | main.go:160-173 | The board for "tears" marked gray, yellow, green, gray, gray is five coloured letters and one line break, with a normal exit. |
| Commands.TearsExample | main.go:107-122 | "tears" marked gray, yellow, green, gray, gray prints the bottom comment and one line of five coloured letters. |

## Left out

- `getUser` (main.go:70-81): the identity lookup is a call to the host platform's REST client. `Run` takes only whether it succeeded.
- Request headers (main.go:177-178): the login and id headers, with the decimal formatting of the id, are part of the HTTP transport and are not modelled.
- HTTP transport, body reading and JSON decoding (main.go:179-201): these are library behaviour. The model takes their outcome as an input (`Exchange`, `Body`), including a refused `http.NewRequest`. It does not capture which URLs the HTTP library refuses.
- Error texts: a printed error's details (`%+v`) are the abstract `Failure`, not the library's message.
- Terminal colouring and buffering: the coloured print helpers are tokens. The text of a panic message on standard error is not modelled, only its exit status, 2.
- Rendering.PrintGame: the guess word is a sequence of characters, one position per character. Go ranges over the rune starts of a UTF-8 string and indexes its bytes. The two agree on ASCII words, and the model does not capture them on others.
- Commentary.GetGuessComment: the score is an unbounded integer. Go's `int` would overflow only beyond 2^62 marks on 64-bit platforms (2^30 on 32-bit ones).
- The JavaScript harnesses under test/ stub a server-side module that is not part of this model; they contain no client logic.
