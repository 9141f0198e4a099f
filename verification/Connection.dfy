/** The connection to a Redis server. */
module Connection {
  /** What happens to one request: it never arrives, it is answered, or it is carried out and
      the reply is lost. Without a reply the client sees an error. */
  datatype Net = Undelivered | Answered | ReplyLost
}
