/** The values the client exchanges with the game server (main.go's `guess`,
    `gameStatus` and `gameLocator` records), and the marks the server uses. */
module WordleTypes {

  datatype Option<+T> = None | Some(value: T)

  /** One guess as the server reports it: the word, one mark per letter, and
      whether the word was the day's word. `matches` is whatever the server
      sent; the client never checks its length or its values. */
  datatype Guess = Guess(word: string, matches: seq<string>, isMatch: bool)

  /** The whole of today's game, in guess order. */
  datatype GameStatus = GameStatus(guesses: seq<Guess>, status: string)

  /** Which game to talk to: an org (`my-org`) or a repository (`my-org/my-repo`),
      and whether to use the test server. */
  datatype Locator = Locator(host: string, test: bool)

  /** The three marks a server can give a letter. */
  const GreenMark: string := "green"
  const YellowMark: string := "yellow"
  const GrayMark: string := "gray"
}
