/** How the client reads the server's answer (main.go, send). The transport,
    the body read and the JSON decoding are not modelled; what each of them
    produced is an input. */
module Responses {
  import opened WordleTypes

  /** The errors an invocation can report. */
  datatype Failure =
    | IdentityUnavailable   // getUser failed
    | RequestRejected       // http.NewRequest refused the URL
    | TransportFailed       // client.Do failed
    | BodyUnreadable        // reading the response body failed
    | BodyMalformed         // the body was not JSON for a game

  /** What reading the body of a response gave. */
  datatype Body = Unreadable | Malformed | Decoded(game: GameStatus)

  /** What the attempt to talk to the server gave. */
  datatype Exchange =
    | NotBuilt                          // the request could not be built
    | Unreachable                       // no response came back
    | Answered(code: int, body: Body)   // a response with this status code

  /** What send returns: a game, no game (with a nil error), or an error. */
  datatype Reply = NoGame | Game(game: GameStatus) | Failed(failure: Failure)

  /** send: 400 is "no game"; any other status above 299 also comes back without
      a game and with the transport's error, which is nil at that point, so it
      is "no game" too; 299 and below reach the body. In three bands: no game
      exactly for every status of 300 or more, a game exactly for a decoded body
      under a status of 299 or below, an error for everything else. */
  function Send(x: Exchange): (r: Reply)
    ensures r.NoGame? <==> x.Answered? && x.code >= 300
    ensures r.Game? <==> x.Answered? && x.code <= 299 && x.body.Decoded?
    ensures r.Game? ==> r.game == x.body.game
    ensures r.Failed? <==> !x.Answered? || (x.code <= 299 && !x.body.Decoded?)
  {
    match x
    case NotBuilt => Failed(RequestRejected)
    case Unreachable => Failed(TransportFailed)
    case Answered(code, body) =>
      if code == 400 then NoGame
      else if code > 299 then NoGame
      else
        match body
        case Unreadable => Failed(BodyUnreadable)
        case Malformed => Failed(BodyMalformed)
        case Decoded(game) => Game(game)
  }

  /** The status code and what the body held decide the reply together only
      below 300; from 300 on the body is never looked at. */
  lemma BodyIgnoredFromThreeHundred(code: int, a: Body, b: Body)
    requires code >= 300
    ensures Send(Answered(code, a)) == Send(Answered(code, b)) == NoGame
  {
  }

  /** A server error is not told apart from a 400: both are "no game". */
  lemma ServerErrorLooksLikeNoGame(body: Body)
    ensures Send(Answered(500, body)) == Send(Answered(400, body)) == NoGame
  {
  }

  /** An error comes only from building, sending, reading or decoding, never
      from the status code alone. */
  lemma FailureSources(x: Exchange)
    requires Send(x).Failed?
    ensures Send(x).failure in {RequestRejected, TransportFailed, BodyUnreadable, BodyMalformed}
    ensures x.Answered? ==> x.code <= 299
  {
  }
}
