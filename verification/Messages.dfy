/** The protocol messages that concern the document, as the server and the client state see them. */
module Messages {
  import opened Operations

  datatype Option<+T> = None | Some(value: T)

  /** Server to client. A version of -1 is an absent version field. */
  datatype ServerMessage =
    | Welcome(clientId: string)
    | DocState(version: int, historyStartVersion: int, content: Option<string>)
    | Ack(clientId: string, opId: string, baseVersion: int, serverVersion: int, version: int,
          op: Option<Operation>, originalOp: Option<Operation>)
    | RemoteOp(clientId: string, opId: string, serverVersion: int, version: int, op: Option<Operation>)
    | ResyncRequired(opId: string, reason: string, serverVersion: int, historyStartVersion: int)
    | Error(opId: string, message: string)

  /** Client to server. */
  datatype ClientMessage =
    | SubmitOp(clientId: string, opId: string, baseVersion: int, op: Option<Operation>)
    | RequestDoc
}
